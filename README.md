# Room-sensor firmware and host console tools, modelled in Dafny

This project models the sequential logic of a family of ESP32 devices (the
room sensor, the air-quality unit, the LED amplifier and the button puzzle)
and of the host tools that talk to them over a serial port. Each core
source file has its own Dafny module, and each module's contracts state
what that code promises.

- **Host serial tools.** `SerialConnection` (air test fixture) and
  `SerialConsole` (room-sensor utility) are classes with a bounded raw
  buffer, a monotonic base offset, marks, and polling waits whose clock is
  a parameter. The terminal layer covers the `ESC[6n` device status report
  (ECMA-48 section 8.3.35) answered by the `ESC[1;1R` cursor position
  report (section 8.3.14), and the stripping of CSI (section 5.4) and OSC
  sequences. `program.py`'s command building, config merging and capture
  loop are modelled as well. Bytes are decoded one byte to one code point.
  Python's UTF-8 decoding with replacement characters is not modelled.
- **On-device console ring** (`console_buffer.c`): a byte array with
  wrapping `head`/`tail` indices. The ring's ghost sequence of records is
  tied to the bytes. Append, evict and iterate are each proved against it.
- **Byte codecs and drivers.**
  - Sensirion CRC-8 and the SEN55 command framing and measurement parsing.
  - The BME280 calibration decoding and integer compensation (section 4.2.3
    of the Bosch BME280 datasheet), and its register guards before init.
  - The LIS2DH register bit-field updates.
  - The I2C master helpers' binary strings and little-endian packing.
- **Metrics, logging and OTA.**
  - The metric tag collection.
  - `safe_strcat` and MQTT metric topic building.
  - The netlog line parser and message trimming.
  - The OTA git-hash extraction, upgrade decision and status report.
- **Configuration.** The wifi, LED, A2D, IO and I2C modules' validators of
  `apply_update`, their parse/print pairs, and the configuration manager.
  The manager covers module lookup, the generation bump, DMA exclusivity
  among the four LED modules, and MQTT topic routing. A topic that contains
  `/config/reset` anywhere selects the reset.
- **LEDs.**
  - The RGBW pixel buffer and the RMT strip driver's pixel store and flush
    gating.
  - The three coordinate mappers. The column-major mapper is proved a
    bijection on every grid. The flip-dot mapper is proved one on panels of
    whole 8x8 boxes, and the serpentine mapper when its segment height
    divides the grid height. Outside those shapes both can send a cell
    off the grid, and a lemma exhibits each case.
  - The flip-dot and WS2814 wire encoders.
  - The transition compositions and the power/refresh policies.
  - The Game-of-Life pattern.
  - The solid pattern's spatial duty and chase.
  - The button puzzle's state machine.

Fixed-width C integers are subset types of `int` (`u8`, `u16`, `u32`,
`u64`, `i16`, …). Wrap-around is written out wherever the source relies on
it, for example generation counters `% 2^32` and time differences `% 2^64`.
A NULL pointer is `None`. Hardware, bus and clock calls are parameters or
abstract results.

The source's two OTA code paths disagree when the local build time is
unknown (0). The manifest check reports up to date; the periodic status
report says upgrading. `Ota.UnknownLocalTimeDisagrees` states this as the
code does it.

## Model

| member | source | states |
|---|---|---|
| ConfigText.TextOr | roomsensor/src/components/configuration/WifiConfig.cpp:74 | a NULL value reads as the empty string and any other value as itself |
| ConfigText.IntOr | roomsensor/src/components/configuration/LEDConfig.cpp:85 | `value ? atoi(value) : d` gives the default for NULL and 0 for the empty string |
| ConfigText.IntOrIntString | roomsensor/src/components/configuration/LEDConfig.cpp:85 | a printed integer holds no NUL and is read back by `atoi` |
| ConfigText.CaseEqLower | roomsensor/src/components/configuration/IOConfig.cpp:82-86 | `strcasecmp(v, w) == 0` against a lower-case word is equality of v lowered with w |
| ConfigText.TruthyCaseEq | roomsensor/src/components/configuration/IOConfig.cpp:82-83 | a value is ON exactly when it matches 1, true, on or yes ignoring case |
| ConfigText.FalsyCaseEq | roomsensor/src/components/configuration/IOConfig.cpp:85-86 | a value is OFF exactly when it matches 0, false, off or no ignoring case |
| ConfigText.TruthyFalsyDisjoint | roomsensor/src/components/configuration/IOConfig.cpp:82-88 | no value is both ON and OFF, so the order of the two tests does not matter |
| ConfigText.ScanInt | roomsensor/src/components/configuration/IOConfig.cpp:54 | a successful `%d` consumes a run that ends in a digit and is not followed by one |
| ConfigText.ScanIntAtoi | roomsensor/src/components/configuration/IOConfig.cpp:54 | `%d` reads the same number `atoi` does, and fails only where `atoi` gives 0 |
| ConfigText.ScanIntNatString | roomsensor/src/components/configuration/IOConfig.cpp:54 | `%d` reads back a decimal numeral that no digit follows, consuming exactly the numeral |
| ConfigText.WordRun | roomsensor/src/components/configuration/A2DConfig.cpp:49 | the word run stops at the width, at white space or at the end of the text |
| ConfigText.ScanWord | roomsensor/src/components/configuration/A2DConfig.cpp:49 | `%15s` skips white space and takes 1 to 15 characters up to the next white space; it fails exactly when nothing is left |
| ConfigText.ScanWordWhole | roomsensor/src/components/configuration/A2DConfig.cpp:49 | a word without white space that fits the width is read back whole |
| ConfigWifi.LogLevel | roomsensor/src/components/configuration/WifiConfig.cpp:85-91 | the log level is 2 for NULL, the `atoi` value when it lies in 0..5, and clamped to 0 or 5 otherwise |
| ConfigWifi.Apply | roomsensor/src/components/configuration/WifiConfig.cpp:27-97 | a NULL key is INVALID_ARG and a key outside the five is NOT_FOUND, neither changing anything; ssid is accepted exactly when NULL or 1..32 characters, password exactly when NULL, 8..63 characters or 64 hex digits, and then stored and marked set; mqtt_broker and channel store the text and mark set exactly for a non-NULL value; loglevel stores the clamped level; every update keeps the stored configuration valid |
| ConfigWifi.ApplyAll | roomsensor/src/components/configuration/WifiConfig.cpp:27-97 | any sequence of updates keeps the stored configuration valid |
| ConfigWifi.IsHex64 | roomsensor/src/components/configuration/WifiConfig.cpp:54-64 | the scan is true exactly for 64 characters that are all hexadecimal digits of either case |
| ConfigWifi.WifiConfig.constructor | roomsensor/src/components/configuration/WifiConfig.cpp:10-17 | a new module has nothing set and log level 2, at generation 0 |
| ConfigWifi.WifiConfig.ApplyUpdate | roomsensor/src/components/configuration/WifiConfig.cpp:27-97 | the result and the new fields are `Apply` of the old fields |
| ConfigWifi.WifiConfig.MarkUpdated | roomsensor/src/components/configuration/ConfigurationModule.h:34-38 | the generation counter advances by one, wrapping as a uint32_t |
| ConfigA2d.ScanChannelKey | roomsensor/src/components/configuration/A2DConfig.cpp:49 | a scanned key yields a channel number and a field name of 1..15 non-space characters |
| ConfigA2d.ScanField | roomsensor/src/components/configuration/A2DConfig.cpp:49 | the `%15s` conversion yields 1..15 non-space characters or fails |
| ConfigA2d.ChannelKey | roomsensor/src/components/configuration/A2DConfig.cpp:27-34 | a key written as `ch<n>.<field>` starts with `ch` |
| ConfigA2d.ScanChannelKeyRoundTrip | roomsensor/src/components/configuration/A2DConfig.cpp:27-34 | scanning the key `ch<n>.<field>` gives back the channel and field it was written from |
| ConfigA2d.ChannelKeyText | roomsensor/src/components/configuration/A2DConfig.cpp:27-34 | a written channel key holds no NUL, so it is a C string |
| ConfigA2d.ApplyField | roomsensor/src/components/configuration/A2DConfig.cpp:53-103 | only OK, INVALID_ARG or NOT_FOUND result, and an error changes nothing; NOT_FOUND exactly for a field other than enabled, gain, sensor and name; `enabled` is accepted exactly for NULL, "1", "0" or true/false in any case and is true exactly for "1" or "true"; `gain` is accepted exactly for one of the seven ranges; `sensor` is accepted exactly when empty or BTS7002/RSUV and counts as set only when not empty; `name` is always accepted and set only when not empty |
| ConfigA2d.Apply | roomsensor/src/components/configuration/A2DConfig.cpp:42-104 | a NULL key is INVALID_ARG; a key without the `ch` prefix is NOT_FOUND; a key that does not scan or names a channel outside 1..4 is INVALID_ARG; an error changes no channel; on OK exactly the addressed channel is replaced by the field update |
| ConfigA2d.OnlyAddressedChannel | roomsensor/src/components/configuration/A2DConfig.cpp:51 | an update never changes a channel other than the one its key names |
| ConfigA2d.ApplyChannelKey | roomsensor/src/components/configuration/A2DConfig.cpp:26-104 | an update under the key `ch<n>.<field>` for a channel 1..4 and a known field is exactly that field's update on that channel |
| ConfigA2d.ChannelConfig | roomsensor/src/components/configuration/A2DConfig.cpp:129-133 | a channel outside 1..4 reads as the default channel; one inside reads as stored |
| ConfigA2d.ChannelView | roomsensor/src/components/configuration/A2DConfig.cpp:119-122 | the JSON object for a channel carries exactly those fields that were set, and its channel number |
| ConfigA2d.ChannelViews | roomsensor/src/components/configuration/A2DConfig.cpp:114-124 | the channels array has at most one entry per remaining channel |
| ConfigA2d.ChannelViewsSound | roomsensor/src/components/configuration/A2DConfig.cpp:114-124 | every entry of the channels array is the view of a channel that has something set, under its own number |
| ConfigA2d.ChannelViewsComplete | roomsensor/src/components/configuration/A2DConfig.cpp:114-124 | every channel that has something set appears in the channels array |
| ConfigA2d.ChannelViewsOrdered | roomsensor/src/components/configuration/A2DConfig.cpp:114-124 | the channels array is in increasing channel order |
| ConfigA2d.ToJson | roomsensor/src/components/configuration/A2DConfig.cpp:106-127 | no JSON exactly when no channel has anything set; otherwise the non-empty channels array |
| ConfigA2d.A2dConfig.constructor | roomsensor/src/components/configuration/A2DConfig.cpp:23-36 | a new A2D module is named by its instance name, or `a2d` for NULL, and has four default channels (enabled, nothing set) and generation 0 |
| ConfigA2d.A2dConfig.ApplyUpdate | roomsensor/src/components/configuration/A2DConfig.cpp:42-104 | the error and the new channels are those of Apply on the old channels |
| ConfigA2d.A2dConfig.ApplyChannelKeyUpdate | roomsensor/src/components/configuration/A2DConfig.cpp:46-51 | for a key with the `ch` prefix, the error and new channels are those of Apply |
| ConfigA2d.A2dConfig.UpdateChannel | roomsensor/src/components/configuration/A2DConfig.cpp:51-103 | the addressed channel takes the field update when it succeeds, and nothing changes when it fails |
| ConfigA2d.A2dConfig.ChannelAt | roomsensor/src/components/configuration/A2DConfig.cpp:129-133 | the channel read is ChannelConfig of the stored channels |
| ConfigA2d.A2dConfig.MarkUpdated | roomsensor/src/components/configuration/ConfigurationModule.h:34-38 | the generation counter advances by one, wrapping at 2^32 |
| ConfigI2c.Digits | roomsensor/src/components/configuration/I2CConfig.cpp:38-39 | the digits are the key, or the key without a leading `0x`/`0X` |
| ConfigI2c.HexNumber | roomsensor/src/components/configuration/I2CConfig.cpp:43-54 | one hex digit is below 16 and two are below 256 |
| ConfigI2c.KeyAddress | roomsensor/src/components/configuration/I2CConfig.cpp:35-55 | an address is read only from a non-NULL key with 1..2 hex digits after the optional prefix, and lies in 0x08..0x77 |
| ConfigI2c.ToHexKey | roomsensor/src/components/configuration/I2CConfig.cpp:15-19 | the key of an address is two lower-case hex digits spelling that address |
| ConfigI2c.HexKey | roomsensor/src/components/configuration/I2CConfig.cpp:35-60 | a key normalizes exactly when it names an address in 0x08..0x77, and then to two lower-case hex digits spelling that address |
| ConfigI2c.ToHexKeyRoundTrip | roomsensor/src/components/configuration/I2CConfig.cpp:15-19 | reading back the key written for an address gives that address |
| ConfigI2c.HexKeyIdempotent | roomsensor/src/components/configuration/I2CConfig.cpp:35-60 | normalizing a normalized key changes nothing |
| ConfigI2c.ToHexKeyInjective | roomsensor/src/components/configuration/I2CConfig.cpp:15-19 | distinct addresses have distinct keys |
| ConfigI2c.HexKeyPrefixes | roomsensor/src/components/configuration/I2CConfig.cpp:37-39 | `2a`, `0x2a` and `0X2a` normalize alike |
| ConfigI2c.UpperCaseKeyExample | roomsensor/src/components/configuration/I2CConfig.cpp:37 | `0X2A` normalizes to `2a` |
| ConfigI2c.PaddedKeyExample | roomsensor/src/components/configuration/I2CConfig.cpp:40 | `8` is padded to `08` |
| ConfigI2c.LastAddressExample | roomsensor/src/components/configuration/I2CConfig.cpp:55 | 0x77 is accepted and 0x78 refused |
| ConfigI2c.MalformedKeyExample | roomsensor/src/components/configuration/I2CConfig.cpp:42-52 | a bare prefix, three digits and a non-hex digit are refused |
| ConfigI2c.NormalizeHexKey | roomsensor/src/components/configuration/I2CConfig.cpp:35-60 | the loop succeeds exactly when HexKey does and produces its key |
| ConfigI2c.Update | roomsensor/src/components/configuration/I2CConfig.cpp:62-83 | a key that does not normalize is INVALID_ARG and changes nothing; otherwise OK, a NULL or empty value removes the mapping and bumps the generation only if one existed, and any other value stores the driver name and bumps it |
| ConfigI2c.UpdateFrame | roomsensor/src/components/configuration/I2CConfig.cpp:62-83 | no mapping other than the addressed one is added or changed |
| ConfigI2c.UpdateNormalized | roomsensor/src/components/configuration/I2CConfig.cpp:62-83 | every stored key stays a normalized key |
| ConfigI2c.Lookup | roomsensor/src/components/configuration/I2CConfig.cpp:95-101 | an address outside 0x08..0x77 or without a mapping gives the empty string, otherwise the stored driver name |
| ConfigI2c.UpdateThenLookup | roomsensor/src/components/configuration/I2CConfig.cpp:62-101 | after an update the addressed slot reads the new driver name (empty for a removal) and every other address reads as before |
| ConfigI2c.I2cConfig.constructor | roomsensor/src/components/configuration/I2CConfig.cpp:13 | a new module has no mappings and generation 0 |
| ConfigI2c.I2cConfig.ApplyUpdate | roomsensor/src/components/configuration/I2CConfig.cpp:62-83 | the result, the map and the generation are those Update gives |
| ConfigI2c.I2cConfig.UpdateEntry | roomsensor/src/components/configuration/I2CConfig.cpp:69-82 | for a normalized key, the map and generation change as Update describes |
| ConfigI2c.I2cConfig.DriverFor | roomsensor/src/components/configuration/I2CConfig.cpp:95-101 | `get_driver_for_address` is Lookup on the stored map |
| ConfigIo.ParsePinMode | roomsensor/src/components/configuration/IOConfig.cpp:33-38 | a value parses as SWITCH exactly when it is `SWITCH`, as SENSOR exactly when it is `SENSOR`, and is invalid otherwise, NULL included |
| ConfigIo.PinModeName | roomsensor/src/components/configuration/IOConfig.cpp:40-46 | only the invalid mode has the empty name |
| ConfigIo.PinModeRoundTrip | roomsensor/src/components/configuration/IOConfig.cpp:33-46 | a valid mode's name parses back to it, and every value that parses is the name of the mode it parses to |
| ConfigIo.Route | roomsensor/src/components/configuration/IOConfig.cpp:48-99 | a key is outside the three families exactly when it neither starts with `pin` and contains `config` or `name`, nor starts with `switch` |
| ConfigIo.ApplyMode | roomsensor/src/components/configuration/IOConfig.cpp:55-59 | a mode update succeeds exactly for SWITCH or SENSOR and then records exactly that mode as set; it fails with INVALID_ARG and no change otherwise; nothing but the mode changes |
| ConfigIo.ApplyName | roomsensor/src/components/configuration/IOConfig.cpp:68-70 | a name update always succeeds, stores the text (empty for NULL) and marks it set exactly for a non-NULL value; nothing but the name changes |
| ConfigIo.ApplySwitch | roomsensor/src/components/configuration/IOConfig.cpp:79-94 | a switch update succeeds exactly for NULL or a truthy or falsy word, and then marks the switch set and on exactly for a truthy word; it fails with no change otherwise; nothing but the switch changes |
| ConfigIo.Apply | roomsensor/src/components/configuration/IOConfig.cpp:48-100 | a NULL key is INVALID_ARG; NOT_FOUND exactly for a key outside the three families; a key in a family whose number does not scan or lies outside 1..8 is INVALID_ARG; an error changes no pin; on OK exactly the addressed pin takes the update |
| ConfigIo.OnlyAddressedPin | roomsensor/src/components/configuration/IOConfig.cpp:57-93 | an update never changes a pin other than the one its key names |
| ConfigIo.IndexOfNumberedKey | roomsensor/src/components/configuration/IOConfig.cpp:54 | scanning a key written as `<prefix><n><suffix>` reads back `n` |
| ConfigIo.OneDigitKey | roomsensor/src/components/configuration/IOConfig.cpp:10-26 | a pin number 1..9 is written as a single digit |
| ConfigIo.ConfigKeyRoute | roomsensor/src/components/configuration/IOConfig.cpp:8-14 | the descriptor key `pin<n>config` routes to the mode update of pin n |
| ConfigIo.NameKeyRoute | roomsensor/src/components/configuration/IOConfig.cpp:15-20 | the descriptor key `pin<n>name` routes to the name update of pin n, not the mode update |
| ConfigIo.SwitchKeyRoute | roomsensor/src/components/configuration/IOConfig.cpp:21-26 | the descriptor key `switch<n>` routes to the switch update of pin n |
| ConfigIo.NoConfigInName | roomsensor/src/components/configuration/IOConfig.cpp:65 | a `pin<n>name` key does not contain `config`, so it is not taken for a mode key |
| ConfigIo.PinView | roomsensor/src/components/configuration/IOConfig.cpp:130-158 | a pin 1..8 reads as stored; any other reads as an unset pin with the invalid mode, off switches and an empty name |
| ConfigIo.IoConfig.constructor | roomsensor/src/components/configuration/IOConfig.cpp:8-27 | a new IO module is named by its instance name, or `io1` for NULL, has eight unset pins and generation 0 |
| ConfigIo.IoConfig.ApplyUpdate | roomsensor/src/components/configuration/IOConfig.cpp:48-100 | the error and the new pins are those of Apply on the old pins |
| ConfigIo.IoConfig.UpdatePin | roomsensor/src/components/configuration/IOConfig.cpp:55-94 | the addressed pin takes the update when it succeeds, and nothing changes when it fails |
| ConfigIo.IoConfig.PinAt | roomsensor/src/components/configuration/IOConfig.cpp:130-158 | the pin read is PinView of the stored pins |
| ConfigIo.IoConfig.SetSwitchState | roomsensor/src/components/configuration/IOConfig.h:60 | pin i's switch becomes `on` and set for i in 1..8; any other i changes nothing |
| ConfigIo.IoConfig.SetContactState | roomsensor/src/components/configuration/IOConfig.h:55 | pin i's contact becomes `closed` and set for i in 1..8; any other i changes nothing |
| ConfigIo.IoConfig.MarkUpdated | roomsensor/src/components/configuration/ConfigurationModule.h:34-38 | the generation counter advances by one, wrapping at 2^32 |
| ConfigLed.ParseChip | roomsensor/src/components/configuration/LEDConfig.cpp:39-44 | a value parses to a chip only when it is exactly that chip's name |
| ConfigLed.ChipName | roomsensor/src/components/configuration/LEDConfig.cpp:46-52 | the invalid chip is named WS2812 |
| ConfigLed.ChipRoundTrip | roomsensor/src/components/configuration/LEDConfig.cpp:39-52 | every valid chip's name parses back to it |
| ConfigLed.ParsePattern | roomsensor/src/components/configuration/LEDConfig.cpp:54-64 | a value parses to a pattern only when it is exactly that pattern's name |
| ConfigLed.PatternName | roomsensor/src/components/configuration/LEDConfig.cpp:66-78 | the invalid pattern is named OFF |
| ConfigLed.PatternRoundTrip | roomsensor/src/components/configuration/LEDConfig.cpp:54-78 | every valid pattern's name parses back to it |
| ConfigLed.Dimension | roomsensor/src/components/configuration/LEDConfig.cpp:102-111 | a column or row count is at least 1: 1 for NULL or a value `atoi` reads as 0 or less, and the `atoi` value otherwise |
| ConfigLed.Percent | roomsensor/src/components/configuration/LEDConfig.cpp:128-141 | brightness and speed lie in 0..100: 100 for NULL, the `atoi` value when in range, and clamped to 0 or 100 otherwise |
| ConfigLed.Apply | roomsensor/src/components/configuration/LEDConfig.cpp:80-169 | a NULL key is INVALID_ARG; NOT_FOUND exactly for a key outside the fourteen; only OK, INVALID_ARG or NOT_FOUND result; an error changes nothing; every update keeps the settings valid (dimensions at least 1, percentages in range, chip and pattern names matching their kinds, dma only when set) |
| ConfigLed.KeysSplit | roomsensor/src/components/configuration/LEDConfig.cpp:80-169 | the fourteen keys are the hardware keys, the look keys and `dma` |
| ConfigLed.ApplyHardware | roomsensor/src/components/configuration/LEDConfig.cpp:83-111 | `dataGPIO` and `enabledGPIO` store the `atoi` value (-1 for NULL) and are set exactly for non-NULL; `chip` is accepted exactly for a valid chip name, which it stores; `num_columns` and `num_rows` store the Dimension; errors change nothing; validity is kept |
| ConfigLed.ApplyLook | roomsensor/src/components/configuration/LEDConfig.cpp:114-146 | `pattern` is accepted exactly for a valid pattern name, stores it and marks it set; `R`, `G`, `B`, `W` store the `atoi` value (0 for NULL); brightness and speed store the Percent; each is set exactly for non-NULL; every look key but `pattern` succeeds; validity is kept |
| ConfigLed.ApplyDma | roomsensor/src/components/configuration/LEDConfig.cpp:147-166 | NULL or empty clears dma and its set flag; a non-empty value is accepted exactly when truthy or falsy; only the dma fields change; dma is on only when set |
| ConfigLed.DmaWords | roomsensor/src/components/configuration/LEDConfig.cpp:155-163 | a truthy word sets dma on and a falsy word sets it off, both marked set |
| ConfigLed.LedConfig.constructor | roomsensor/src/components/configuration/LEDConfig.h:61-78 | a new LED module is named by its instance name, or `led` for NULL, holds the default settings (no GPIO, WS2812, 1x1, pattern OFF, brightness and speed 100) and generation 0 |
| ConfigLed.LedConfig.ApplyUpdate | roomsensor/src/components/configuration/LEDConfig.cpp:80-169 | the error and the new settings are those of Apply on the old settings |
| ConfigLed.LedConfig.UpdateHardware | roomsensor/src/components/configuration/LEDConfig.cpp:83-111 | a hardware key updates the settings as ApplyHardware says |
| ConfigLed.LedConfig.UpdateLook | roomsensor/src/components/configuration/LEDConfig.cpp:114-146 | a look key updates the settings as ApplyLook says |
| ConfigLed.LedConfig.UpdateDma | roomsensor/src/components/configuration/LEDConfig.cpp:147-166 | the `dma` key updates the settings as ApplyDma says |
| ConfigLed.LedConfig.MarkUpdated | roomsensor/src/components/configuration/ConfigurationModule.h:34-38 | the generation counter advances by one, wrapping at 2^32 |
| ConfigManager.Position | roomsensor/src/components/configuration/ConfigurationManager.cpp:27-66 | every registered module has a position among the twenty in `modules_` |
| ConfigManager.ModuleAt | roomsensor/src/components/configuration/ConfigurationManager.cpp:27-66 | each of the twenty positions holds a registered module at that position |
| ConfigManager.PositionInverse | roomsensor/src/components/configuration/ConfigurationManager.cpp:27-66 | position and module-at-position are inverse |
| ConfigManager.NamesDistinct | roomsensor/src/components/configuration/ConfigurationManager.cpp:27-66 | the twenty registered names are pairwise distinct |
| ConfigManager.FirstNamed | roomsensor/src/components/configuration/ConfigurationManager.cpp:70-72 | the scan finds the first module from position i with the name, or reports that none has it |
| ConfigManager.Find | roomsensor/src/components/configuration/ConfigurationManager.cpp:68-74 | a module is found only for a non-NULL name it carries, and it is the first such; nothing is found exactly for NULL or a name no module carries |
| ConfigManager.FindName | roomsensor/src/components/configuration/ConfigurationManager.cpp:68-74 | every registered module is found by its own name |
| ConfigManager.ApplyLed | roomsensor/src/components/configuration/ConfigurationManager.cpp:254 | an update of strip n can change only strip n, and nothing when refused |
| ConfigManager.ApplyA2d | roomsensor/src/components/configuration/ConfigurationManager.cpp:254 | an update of A2D module n can change only its channels, and nothing when refused |
| ConfigManager.ApplyIo | roomsensor/src/components/configuration/ConfigurationManager.cpp:254 | an update of IO module n can change only its pins, and nothing when refused |
| ConfigManager.ApplyTo | roomsensor/src/components/configuration/ConfigurationManager.cpp:254 | `apply_update` never moves a generation, keeps every module's shape and changes nothing when it fails |
| ConfigManager.ApplyToOutside | roomsensor/src/components/configuration/ConfigurationManager.cpp:254 | `apply_update` changes no module but the one it is called on |
| ConfigManager.BumpGens | roomsensor/src/components/configuration/ConfigurationModule.h:34-38 | one counter goes up by one, wrapping at 2^32, and the others stay |
| ConfigManager.Bump | roomsensor/src/components/configuration/ConfigurationManager.cpp:260 | `mark_updated` keeps every module's shape |
| ConfigManager.ReleaseLeds | roomsensor/src/components/configuration/ConfigurationManager.cpp:280-286 | releasing the other strips' DMA claims keeps four strips |
| ConfigManager.Commit | roomsensor/src/components/configuration/ConfigurationManager.cpp:260-288 | the bump and the DMA release keep every module's shape |
| ConfigManager.Handle | roomsensor/src/components/configuration/ConfigurationManager.cpp:250-368 | `handle_update` keeps every module's shape |
| ConfigManager.HandleUnknown | roomsensor/src/components/configuration/ConfigurationManager.cpp:251-252 | a NULL or unknown module name is NOT_FOUND and changes nothing |
| ConfigManager.HandleRejected | roomsensor/src/components/configuration/ConfigurationManager.cpp:254-258 | a refused update is reported with the module's own error and changes nothing, generations included |
| ConfigManager.HandleBumpsOnce | roomsensor/src/components/configuration/ConfigurationManager.cpp:254-260 | an accepted update bumps the updated module's generation by exactly one, moves no other generation, and reports the publish result |
| ConfigManager.HandleAccepted | roomsensor/src/components/configuration/ConfigurationManager.cpp:254-367 | an accepted update is applied, committed and reported with the publish result |
| ConfigManager.HandleChangesOnlyTarget | roomsensor/src/components/configuration/ConfigurationManager.cpp:250-368 | any update other than a DMA claim by a strip changes no module but the one named |
| ConfigManager.DmaRelease | roomsensor/src/components/configuration/ConfigurationManager.cpp:281-285 | giving up the claim clears dma and its flag and nothing else |
| ConfigManager.DmaClaim | roomsensor/src/components/configuration/ConfigurationManager.cpp:269-272 | a truthy `dma` value claims the channel on the strip updated |
| ConfigManager.HandleDmaExclusive | roomsensor/src/components/configuration/ConfigurationManager.cpp:267-288 | a DMA claim by strip k succeeds with the publish result, leaves k holding the channel, and clears the claim of each other strip, leaving its settings otherwise unchanged |
| ConfigManager.RouteTopic | roomsensor/src/components/configuration/ConfigurationManager.cpp:482-511 | a NULL topic is refused; a topic resets exactly when it mentions `/config/reset` anywhere |
| ConfigManager.RouteConfigTopic | roomsensor/src/components/configuration/ConfigurationManager.cpp:493-511 | after the reset test a topic without `/config/` is refused and never resets |
| ConfigManager.SplitTarget | roomsensor/src/components/configuration/ConfigurationManager.cpp:500-511 | a split gives a module name without `/` and a non-empty key that rebuild the rest; a rest without `/` is refused |
| ConfigManager.RouteTopicShape | roomsensor/src/components/configuration/ConfigurationManager.cpp:485-511 | a routed update comes from a non-NULL topic without `/config/reset` that ends in `/config/<module>/<key>`, module without `/` and key non-empty |
| ConfigManager.ConfigTopicShape | roomsensor/src/components/configuration/ConfigurationManager.cpp:493-511 | the part after the reset test routes only topics ending in `/config/<module>/<key>` |
| ConfigManager.TopicRoundTrip | roomsensor/src/components/configuration/ConfigurationManager.cpp:482-514 | `<pre>/config/<module>/<key>` routes to that module and key when `/config/` first occurs there and the topic does not mention a reset |
| ConfigManager.MissingKeyRejected | roomsensor/src/components/configuration/ConfigurationManager.cpp:500-510 | a topic ending after the module name, or after its `/`, is refused |
| ConfigManager.ResetAnywhere | roomsensor/src/components/configuration/ConfigurationManager.cpp:489-491 | `/config/reset` anywhere in a topic selects the reset |
| ConfigManager.OtherModule.constructor | roomsensor/src/components/configuration/ConfigurationManager.cpp:30-33 | a module whose settings are not modelled starts with its name and generation 0 |
| ConfigManager.OtherModule.MarkUpdated | roomsensor/src/components/configuration/ConfigurationModule.h:34-38 | the generation counter advances by one, wrapping at 2^32 |
| ConfigManager.ConfigurationManager.constructor | roomsensor/src/components/configuration/ConfigurationManager.cpp:27-66 | `register_modules` leaves twenty distinct modules carrying the registered names, in their initial configuration with all generations 0 |
| ConfigManager.ConfigurationManager.FindModule | roomsensor/src/components/configuration/ConfigurationManager.cpp:68-74 | the loop finds what Find describes |
| ConfigManager.ConfigurationManager.ApplyModuleUpdate | roomsensor/src/components/configuration/ConfigurationManager.cpp:254 | dispatching `apply_update` to the found module leaves the configuration ApplyTo describes |
| ConfigManager.ConfigurationManager.MarkUpdated | roomsensor/src/components/configuration/ConfigurationManager.cpp:260 | dispatching `mark_updated` leaves the configuration Bump describes |
| ConfigManager.ConfigurationManager.ReleaseOtherClaims | roomsensor/src/components/configuration/ConfigurationManager.cpp:280-286 | the strips other than the one kept give up their DMA claim, by ReleaseLeds |
| ConfigManager.ConfigurationManager.CommitUpdate | roomsensor/src/components/configuration/ConfigurationManager.cpp:260-288 | the bump and the DMA release leave the configuration Commit describes |
| ConfigManager.ConfigurationManager.HandleUpdate | roomsensor/src/components/configuration/ConfigurationManager.cpp:250-368 | the result and the new configuration are those Handle describes |
| ConfigManager.ConfigurationManager.HandleMqttMessage | roomsensor/src/components/configuration/ConfigurationManager.cpp:482-519 | a refused topic is INVALID_ARG and changes nothing; a reset topic returns the reset's result; an update topic is `handle_update` of its module, key and payload |
| ConfigManager.ConfigurationManager.ActiveLeds | roomsensor/src/components/configuration/ConfigurationManager.cpp:109-116 | `active_leds` lists the strip objects that have a data GPIO, in order |
| ConfigManager.AddIfActive | roomsensor/src/components/configuration/ConfigurationManager.cpp:111-114 | one test of `active_leds` extends the list by that strip exactly when it has a data GPIO |
| ConfigManager.NewLeds | roomsensor/src/components/configuration/ConfigurationManager.cpp:34-41 | the four strips are fresh, distinct, named `led1`..`led4`, with default settings and generation 0 |
| ConfigManager.NewA2ds | roomsensor/src/components/configuration/ConfigurationManager.cpp:44-51 | the four A2D modules are fresh, distinct, named `a2d1`..`a2d4`, with default channels and generation 0 |
| ConfigManager.NewIos | roomsensor/src/components/configuration/ConfigurationManager.cpp:58-65 | the eight IO modules are fresh, distinct, named `io1`..`io8`, with default pins and generation 0 |
| ConfigManager.Initial | roomsensor/src/components/configuration/ConfigurationManager.cpp:27-66 | the initial configuration has the registry's shape |
| ConfigManager.ActiveIndices | roomsensor/src/components/configuration/ConfigurationManager.cpp:109-116 | the listed strip positions are below the count examined |
| ConfigManager.ActiveIndicesExact | roomsensor/src/components/configuration/ConfigurationManager.cpp:111-114 | a strip is listed exactly when it has a data GPIO |
| ConfigManager.ActiveIndicesOrdered | roomsensor/src/components/configuration/ConfigurationManager.cpp:109-116 | strips are listed in increasing order |
| LedPower.ScanAnyOn | roomsensor/src/components/leds/PowerManager.h:47-52 | `any_on` is true exactly when the buffer is non-null and one of its rows*cols*4 bytes is non-zero |
| LedPower.ScanDiffers | roomsensor/src/components/leds/PowerManager.h:81-86 | `frame_differs` is true exactly when the dimensions differ, either buffer is null, or some byte differs |
| LedPower.SameFrameNoChange | roomsensor/src/components/leds/PowerManager.h:81-86 | a non-null frame never differs from itself |
| LedPower.DiffersSymmetric | roomsensor/src/components/leds/PowerManager.h:81-86 | `frame_differs(a, b)` and `frame_differs(b, a)` agree |
| LedPower.LedPolicy.constructor | roomsensor/src/components/leds/PowerManager.h:53 | an LED strip's supply starts off |
| LedPower.LedPolicy.OnFrame | roomsensor/src/components/leds/PowerManager.h:35-42 | the supply is on exactly when the current frame lights some byte, and no refresh is ever requested |
| LedPower.DotPolicy.constructor | roomsensor/src/components/leds/PowerManager.h:88-90 | a flip-dot panel starts unpowered with both timestamps 0 |
| LedPower.DotPolicy.OnFrame | roomsensor/src/components/leds/PowerManager.h:62-76 | the new state and the refresh answer are one `DotStep` of the old state, with `changed` being `frame_differs` of the two frames |
| LedPower.ChangeRefreshes | roomsensor/src/components/leds/PowerManager.h:65-74 | a changed frame powers the panel, refreshes it, and stamps both times with now |
| LedPower.QuietFrame | roomsensor/src/components/leds/PowerManager.h:65-74 | without a change: a refresh exactly when 5 s have passed since the last, power exactly while the last change is under 30 s old (unsigned wrap of now - last), and the change time kept |
| LedPower.HeartbeatSpacing | roomsensor/src/components/leds/PowerManager.h:72-74 | after a heartbeat refresh, a quiet frame less than 5 s later does not refresh again |
| LedMappers.ColumnMajor | roomsensor/src/components/leds/LEDCoordinateMapperColumnMajor.h:14-27 | an empty grid maps everything to (0, 0); otherwise the output always lies in the grid |
| LedMappers.ColumnMajorIndex | roomsensor/src/components/leds/LEDCoordinateMapperColumnMajor.h:21-26 | for an in-grid input, the output's column-major index equals the input's row-major index, so the final column clamp never fires |
| LedMappers.ColumnMajorClamps | roomsensor/src/components/leds/LEDCoordinateMapperColumnMajor.h:17-18 | an out-of-range row or column maps like the last row or column |
| LedMappers.ColumnMajorInjective | roomsensor/src/components/leds/LEDCoordinateMapperColumnMajor.h:14-27 | distinct in-grid cells map to distinct cells |
| LedMappers.ColumnMajorOnto | roomsensor/src/components/leds/LEDCoordinateMapperColumnMajor.h:14-27 | every cell of the grid is the image of an in-grid cell, so the mapping permutes the grid |
| LedMappers.BoxSlot | roomsensor/src/components/leds/LEDCoordinateMapperFlipdotGrid.h:36-39 | the slot inside an 8x8 box (columns right to left, rows bottom to top) is below 64 |
| LedMappers.FlipdotGrid | roomsensor/src/components/leds/LEDCoordinateMapperFlipdotGrid.h:21-45 | an empty grid maps everything to (0, 0); otherwise the output column is in range |
| LedMappers.FlipdotDecodeChain | roomsensor/src/components/leds/LEDCoordinateMapperFlipdotGrid.h:33-40 | on a panel of whole 8x8 boxes, a cell's chain index lies within the panel and decodes back to that cell |
| LedMappers.BoxSlotOf | roomsensor/src/components/leds/LEDCoordinateMapperFlipdotGrid.h:36-39 | the cell at box (br, bc) and slot s lies in that box at that slot |
| LedMappers.FlipdotChainDecode | roomsensor/src/components/leds/LEDCoordinateMapperFlipdotGrid.h:33-40 | every chain index of a whole-box panel decodes to an in-panel cell whose chain index it is |
| LedMappers.FlipdotBijective | roomsensor/src/components/leds/LEDCoordinateMapperFlipdotGrid.h:21-45 | on a whole-box panel the mapper permutes the grid: images stay in the grid, each image has its source as preimage, and every cell is an image |
| LedMappers.FlipdotInjective | roomsensor/src/components/leds/LEDCoordinateMapperFlipdotGrid.h:21-45 | distinct in-grid cells of a whole-box panel map to distinct cells |
| LedMappers.FlipdotPartialBox | roomsensor/src/components/leds/LEDCoordinateMapperFlipdotGrid.h:8 | without whole boxes the image can leave the grid: on a 1x8 panel dot (0, 0) maps to (7, 7) |
| LedMappers.SegmentRows | roomsensor/src/components/leds/LEDCoordinateMapperSerpentineColumn.h:27-28 | the segment height: 0 means the full height, and it is cut to the grid height, so 1 <= h <= rows on a non-empty grid |
| LedMappers.EffectiveCol | roomsensor/src/components/leds/LEDCoordinateMapperSerpentineColumn.h:38-39 | the effective column (mirrored on odd segment rows) stays in range |
| LedMappers.EffectiveColTwice | roomsensor/src/components/leds/LEDCoordinateMapperSerpentineColumn.h:38-39 | mirroring the column twice gives the column back |
| LedMappers.SegmentSlot | roomsensor/src/components/leds/LEDCoordinateMapperSerpentineColumn.h:43-44 | the position within a segment column (top-down or bottom-up by parity) is below the segment height |
| LedMappers.SegmentSlotTwice | roomsensor/src/components/leds/LEDCoordinateMapperSerpentineColumn.h:43-44 | flipping the position within a segment twice gives it back |
| LedMappers.Serpentine | roomsensor/src/components/leds/LEDCoordinateMapperSerpentineColumn.h:21-53 | an empty grid maps everything to (0, 0); otherwise the output column is in range |
| LedMappers.SerpentineDirection | roomsensor/src/components/leds/LEDCoordinateMapperSerpentineColumn.h:37-47 | within one row, even segment rows advance along the chain left to right and odd segment rows right to left |
| LedMappers.SerpentineDecodeChain | roomsensor/src/components/leds/LEDCoordinateMapperSerpentineColumn.h:29-47 | when the segments tile the height, a cell's chain index lies in the grid and decodes back to that cell |
| LedMappers.SerpentineChainDecode | roomsensor/src/components/leds/LEDCoordinateMapperSerpentineColumn.h:29-47 | every chain index of the grid decodes to an in-grid cell whose chain index it is |
| LedMappers.SerpentineBijective | roomsensor/src/components/leds/LEDCoordinateMapperSerpentineColumn.h:21-53 | when the segments tile the height the mapper permutes the grid: images stay in the grid, each image has its source as preimage, and every cell is an image |
| LedMappers.SerpentinePartialSegment | roomsensor/src/components/leds/LEDCoordinateMapperSerpentineColumn.h:21-53 | when the segments do not tile the height the image can leave the grid: with three rows in segments of two, cell (2, 0) maps to (3, 0) |
| LedMappers.SerpentineInjective | roomsensor/src/components/leds/LEDCoordinateMapperSerpentineColumn.h:21-53 | distinct in-grid cells map to distinct cells when the segments tile the height |
| LedEncoders.FlipdotFrameSize | roomsensor/src/components/leds/LEDWireEncoderFlipdot.h:12-16 | the flip-dot frame is the dot count rounded up to a multiple of three: at least rows*cols bytes and fewer than rows*cols+3 |
| LedEncoders.Or4Nonzero | roomsensor/src/components/leds/LEDWireEncoderFlipdot.h:31 | the bitwise or of a pixel's four channels is non-zero exactly when some channel is |
| LedEncoders.DotChannelMeaning | roomsensor/src/components/leds/LEDWireEncoderFlipdot.h:28-40 | a dot's channel byte is 255 exactly when the dot exists and is lit, and 0 otherwise |
| LedEncoders.FlipdotFrameBytes | roomsensor/src/components/leds/LEDWireEncoderFlipdot.h:22-44 | every byte of the encoded frame is 0 or 255; byte k is 255 exactly when logical dot k exists and is lit, and the padding bytes are 0 |
| LedEncoders.EncodeFlipdot | roomsensor/src/components/leds/LEDWireEncoderFlipdot.h:18-45 | `encode_frame` writes byte k of the frame from logical dot k, three dots per RGB triple, and leaves the bytes after the frame alone |
| LedEncoders.Ws2814FrameSize | roomsensor/src/components/leds/LEDWireEncoderWS2814.h:13 | a WS2814 frame holds four bytes per pixel |
| LedEncoders.Ws2814FrameAt | roomsensor/src/components/leds/LEDWireEncoderWS2814.h:19-32 | encoded pixel i is logical pixel i's (r, g, b, w) sent as (r, w, g, b) |
| LedEncoders.Ws2814Local | roomsensor/src/components/leds/LEDWireEncoderWS2814.h:19-32 | encoded pixel i depends only on logical pixel i |
| LedEncoders.Ws2814RoundTrip | roomsensor/src/components/leds/LEDWireEncoderWS2814.h:19-32 | undoing the channel reordering on the encoded frame gives back the logical pixels: the encoding loses nothing |
| LedEncoders.Ws2814DecodePrefix | roomsensor/src/components/leds/LEDWireEncoderWS2814.h:19-32 | the reverse reordering reads only the frame's first rows*cols pixels |
| LedEncoders.EncodeWs2814 | roomsensor/src/components/leds/LEDWireEncoderWS2814.h:15-33 | `encode_frame` fills the first rows*cols*4 bytes with the reordered pixels and leaves the rest of the output alone |
| LedTypes.DotLevel | roomsensor/src/components/leds/LEDBuffer.cpp:38 | a flip-dot's level is 255 exactly when some channel is non-zero, and 0 otherwise |
| LedBuffer.Read | roomsensor/src/components/leds/LEDBuffer.cpp:62-66 | `get_pixel` reads the pixel's first three bytes as colour, and its white byte only on a chip with white (0 otherwise) |
| LedBuffer.Put | roomsensor/src/components/leds/LEDBuffer.cpp:33-53 | storing a pixel replaces exactly its four bytes and keeps the length |
| LedBuffer.Shown | roomsensor/src/components/leds/LEDBuffer.cpp:36-53 | what a stored pixel reads back as: itself on SK6812/WS2814, white dropped on WS2812, one 255-or-0 level in r, g, b on a flip-dot |
| LedBuffer.GetAfterSet | roomsensor/src/components/leds/LEDBuffer.cpp:30-69 | get after set: the pixel reads back as `Shown` of what was written, and every other pixel reads as before |
| LedBuffer.FlipdotLevels | roomsensor/src/components/leds/LEDBuffer.cpp:37-42 | a flip-dot reads back 255 in every colour channel exactly when the written pixel was lit, 0 in all of them exactly when it was not, and white 0 |
| LedBuffer.PutKeepsWellformed | roomsensor/src/components/leds/LEDBuffer.cpp:30-57 | `set_pixel` keeps every pixel in a form it can produce (flip-dot bytes equal and 0/255, white byte 0 where there is no white) |
| LedBuffer.StoreRead | roomsensor/src/components/leds/LEDBuffer.cpp:30-69 | storing what `get_pixel` read leaves a well-formed pixel's bytes as they were |
| LedBuffer.ReadFilled | roomsensor/src/components/leds/LEDBuffer.cpp:84-89 | each pixel of a run stored one after another reads back as it was shown |
| LedBuffer.CopyReproduces | roomsensor/src/components/leds/LEDBuffer.cpp:82-100 | copying out a well-formed buffer and storing the pixels into another of the same chip reproduces its bytes exactly |
| LedBuffer.Buffer.constructor | roomsensor/src/components/leds/LEDBuffer.cpp:18-28 | a buffer of `length` pixels holds 4*length zero bytes, records its chip and shape, and starts clean |
| LedBuffer.Buffer.GetPixel | roomsensor/src/components/leds/LEDBuffer.cpp:59-69 | `get_pixel` fails exactly for an index past the end, and otherwise reports `Read` of that pixel |
| LedBuffer.Buffer.SetPixel | roomsensor/src/components/leds/LEDBuffer.cpp:30-57 | an index past the end is refused and changes nothing; otherwise exactly that pixel's bytes become the stored form, `changed` says whether any of them differed, and the buffer turns dirty on a change |
| LedBuffer.Buffer.SetByte | roomsensor/src/components/leds/LEDBuffer.cpp:39-49 | one compare-and-store of a byte: it ends as v, and reports whether it differed |
| LedBuffer.Buffer.Clear | roomsensor/src/components/leds/LEDBuffer.cpp:71-80 | `clear` zeroes every byte and turns the buffer dirty exactly when some byte was non-zero |
| LedBuffer.Buffer.CopyFrom | roomsensor/src/components/leds/LEDBuffer.cpp:82-90 | `copy_from` stores the first min(length, strip length) pixels of the strip in order and keeps the rest; dirty is set exactly when the bytes changed |
| LedBuffer.Buffer.CopyTo | roomsensor/src/components/leds/LEDBuffer.cpp:92-100 | `copy_to` hands to the strip the first min(length, strip length) pixels, each as `get_pixel` reads it |
| LedStripRmt.Normalize | air/src/components/leds/LEDStripRmt.cpp:22-28 | the constructor's shape: no rows means one row, explicit rows and columns are kept, and the length becomes rows*cols (when that fits in 32 bits) |
| LedStripRmt.InferredColumns | air/src/components/leds/LEDStripRmt.cpp:23-28 | with inferred columns the strip is the fewest whole columns that hold the requested length: it holds at least that many LEDs and less than one more row |
| LedStripRmt.ExplicitShape | air/src/components/leds/LEDStripRmt.cpp:22-28 | an explicit shape whose product fits is kept, and the length becomes that product |
| LedStripRmt.BytesPer | air/src/components/leds/LEDStripRmt.cpp:30 | one stored byte per flip-dot, four per pixel on a chip with white, three otherwise |
| LedStripRmt.Offset | air/src/components/leds/LEDStripRmt.cpp:116-117 | pixel i's bytes start at i*bytes_per |
| LedStripRmt.OffsetsApart | air/src/components/leds/LEDStripRmt.cpp:116-117 | an earlier pixel's bytes end before a later pixel's begin, so pixels never overlap |
| LedStripRmt.Put | air/src/components/leds/LEDStripRmt.cpp:120-129 | storing replaces exactly the pixel's bytes and keeps the length |
| LedStripRmt.GetAfterSet | air/src/components/leds/LEDStripRmt.cpp:114-148 | get after set: a flip-dot reads back its 255-or-0 level in r, g and b with white 0, a chip with white reads back the pixel exactly, WS2812 reads it without white, and every other pixel reads as before |
| LedStripRmt.PutOne | air/src/components/leds/LEDStripRmt.cpp:122 | a one-byte store is one update, and reports a change exactly when the byte differed |
| LedStripRmt.PutThree | air/src/components/leds/LEDStripRmt.cpp:125-127 | a three-byte store is three updates, and reports a change exactly when one of the bytes differed |
| LedStripRmt.PutFour | air/src/components/leds/LEDStripRmt.cpp:125-128 | a four-byte store is four updates, and reports a change exactly when one of the bytes differed |
| LedStripRmt.Wire | air/src/components/leds/LEDStripRmt.cpp:174-209 | the driver receives one pixel per physical LED |
| LedStripRmt.UnwireWire | air/src/components/leds/LEDStripRmt.cpp:188-208 | on RGB and RGBW chips the driver arguments determine the pixel: undoing the reordering gives back what `get_pixel` reports |
| LedStripRmt.Ws2814Order | air/src/components/leds/LEDStripRmt.cpp:191-201 | WS2814 hands the driver (r, w, g, b) for a stored (r, g, b, w) |
| LedStripRmt.FlipdotPacking | air/src/components/leds/LEDStripRmt.cpp:175-186 | flip-dot j travels in channel j mod 3 of physical LED j/3, and the channels past the last dot carry 0 |
| LedStripRmt.FlipdotCovers | air/src/components/leds/LEDStripRmt.cpp:177 | the (length+2)/3 physical LEDs give every flip-dot a slot |
| LedStripRmt.DoneAtBounds | air/src/components/leds/LEDStripRmt.cpp:156-163 | without wrap-around the estimated end lies at least the 80 us reset after now and at most 40 us per physical LED more |
| LedStripRmt.Strip.constructor | air/src/components/leds/LEDStripRmt.cpp:18-32 | the shape is normalised, the chip kept, every stored byte 0, and the strip clean and idle |
| LedStripRmt.Strip.GetPixel | air/src/components/leds/LEDStripRmt.cpp:134-148 | `get_pixel` fails exactly past the end and otherwise reads the pixel's stored bytes |
| LedStripRmt.Strip.SetPixel | air/src/components/leds/LEDStripRmt.cpp:114-132 | an index past the end is refused and changes nothing; otherwise exactly the pixel's bytes become the stored form, `changed` says whether any of them differed, and a change makes the strip dirty |
| LedStripRmt.Strip.SetByte | air/src/components/leds/LEDStripRmt.cpp:122-128 | one compare-and-store of a byte: it ends as v, and reports whether it differed |
| LedStripRmt.Strip.Clear | air/src/components/leds/LEDStripRmt.cpp:150-154 | `clear` zeroes every byte and makes the strip dirty exactly when some byte was non-zero |
| LedStripRmt.Strip.FlushIfDirty | air/src/components/leds/LEDStripRmt.cpp:165-220 | while transmitting nothing is sent and the flag drops once the estimated end has passed; a clean strip within the quiescent time is skipped; otherwise the driver gets `Wire` of the pixels and, when the refresh succeeds, the strip is transmitting, clean, stamped with now and given the estimated end, and when it fails nothing else changes |
| LedStripRmt.Strip.Pack | air/src/components/leds/LEDStripRmt.cpp:174-209 | the pixel loop hands the driver exactly `Wire` of the stored bytes |
| LedStripRmt.Strip.OnTransmitComplete | air/src/components/leds/LEDStripRmt.cpp:222-225 | the strip is idle again and the estimated end is the later of the old estimate and now |
| LedTransition.TypeName | roomsensor/src/components/leds/LEDTransition.cpp:389-397 | every type has a non-empty name |
| LedTransition.ParseType | roomsensor/src/components/leds/LEDTransition.cpp:399-406 | a non-SWEEP result comes only from text equal to that type's name |
| LedTransition.ParseTypeName | roomsensor/src/components/leds/LEDTransition.cpp:389-406 | parsing a type's name gives the type back |
| LedTransition.TypeNameInjective | roomsensor/src/components/leds/LEDTransition.cpp:389-397 | no two types share a name |
| LedTransition.ParseUnknown | roomsensor/src/components/leds/LEDTransition.cpp:400-405 | NULL and any text that names no type parse as SWEEP |
| LedTransition.Duration | roomsensor/src/components/leds/LEDTransition.cpp:92-99 | the duration is 40000*(101-speed) us, between 40 ms and 4 s for speeds 1 to 100 |
| LedTransition.DurationDecreasing | roomsensor/src/components/leds/LEDTransition.cpp:92-99 | a higher speed gives a strictly shorter transition |
| LedTransition.MaxRadiusIsCenter | roomsensor/src/components/leds/LEDTransition.cpp:288-291 | on a non-empty strip the largest radius is the centre index len/2 |
| LedTransition.DistWithinCenter | roomsensor/src/components/leds/LEDTransition.cpp:243-244 | every pixel lies within len/2 of the centre |
| LedTransition.Transitioned | roomsensor/src/components/leds/LEDTransition.cpp:43-46 | the sweeps' progress count is clamped to the strip length and otherwise kept |
| LedTransition.ContractRadius | roomsensor/src/components/leds/LEDTransition.cpp:319 | contract's radius is the largest radius minus the progress, when that does not go below zero |
| LedTransition.SweepShowsNew | roomsensor/src/components/leds/LEDTransition.cpp:58-66 | sweep shows the incoming pattern exactly on the pixels at or above len minus the clamped count |
| LedTransition.SweepMirrorsBacksweep | roomsensor/src/components/leds/LEDTransition.cpp:58-66 | sweep at pixel i agrees with backsweep at pixel len-1-i |
| LedTransition.NewCount | roomsensor/src/components/leds/LEDTransition.cpp:63-76 | no more of the first k pixels show the incoming pattern than k |
| LedTransition.BacksweepCount | roomsensor/src/components/leds/LEDTransition.cpp:155-162 | backsweep shows the incoming pattern on exactly the clamped progress count of pixels, the lowest ones |
| LedTransition.SweepCount | roomsensor/src/components/leds/LEDTransition.cpp:58-66 | sweep shows it on exactly the clamped progress count of pixels, the highest ones |
| LedTransition.Monotone | roomsensor/src/components/leds/LEDTransition.cpp:26-80 | as the progress grows a pixel that shows the incoming pattern keeps showing it (for contract while the radius does not pass zero) |
| LedTransition.ExpandContractEnds | roomsensor/src/components/leds/LEDTransition.cpp:236-250 | expand at the full radius shows the incoming pattern everywhere; contract at progress 0 shows it nowhere |
| LedTransition.ContractOvershoot | roomsensor/src/components/leds/LEDTransition.cpp:319-340 | a progress past the largest radius wraps contract's size_t radius around, and the whole strip falls back to the outgoing pattern; `update` never produces such a progress, because the float progress stays below 1 and the duration (at most 4,000,000 us) is below 2^24, so the truncated product is at most the largest radius |
| LedTransition.Compose | roomsensor/src/components/leds/LEDTransition.cpp:58-75 | the composed frame takes each pixel from the incoming frame where it shows the incoming pattern and from the outgoing frame elsewhere |
| LedTransition.Transition.constructor | roomsensor/src/components/leds/LEDTransition.cpp:10-12 | a new transition has speed 50 and every other field 0 |
| LedTransition.Transition.SetSpeed | roomsensor/src/components/leds/LEDTransition.cpp:82-86 | the speed is clamped to 1..100 |
| LedTransition.Transition.DurationUs | roomsensor/src/components/leds/LEDTransition.cpp:88-90 | the duration lies between 40 ms and 4 s |
| LedTransition.Transition.Start | roomsensor/src/components/leds/LEDTransition.cpp:14-24 | the start time and length are recorded; sweep starts with the marker past the end, backsweep and expand at 0, contract at the largest radius; expand and contract record the centre len/2 |
| LedTransition.Transition.Update | roomsensor/src/components/leds/LEDTransition.cpp:26-80 | an empty strip is complete; once the duration has elapsed (uint64_t difference) the transition is complete and the incoming pattern draws; otherwise the strip receives `Compose` of the two frames and the marker records the clamped count, the radius, or contract's radius |
| LedLife.WrapCoord | roomsensor/src/components/leds/GameOfLifePattern.cpp:148-154 | the wrapped coordinate (`(v + max) % max` after the signed offset, in the target's 32-bit size_t) lies in the grid |
| LedLife.WrapToroidal | roomsensor/src/components/leds/GameOfLifePattern.cpp:148-154 | for an offset of at most one cell the wrap is the toroidal neighbour, the Euclidean residue of x + d |
| LedLife.OffsetLive | roomsensor/src/components/leds/GameOfLifePattern.cpp:152-155 | one offset contributes at most one, and the cell itself contributes nothing |
| LedLife.RowLive | roomsensor/src/components/leds/GameOfLifePattern.cpp:151-156 | a row of offsets contributes at most one per column offset, the centre row one fewer |
| LedLife.WindowLive | roomsensor/src/components/leds/GameOfLifePattern.cpp:150-157 | the offsets up to row m contribute at most three per row, one fewer once the centre row is included |
| LedLife.Neighbours | roomsensor/src/components/leds/GameOfLifePattern.cpp:146-159 | a cell has at most 8 live neighbours |
| LedLife.OffsetToroidal | roomsensor/src/components/leds/GameOfLifePattern.cpp:147-155 | each counted offset reads the cell at ((r+dr) mod rows, (c+dc) mod cols) in the column-major grid, and counts 1 exactly when it is non-zero |
| LedLife.CountLiveNeighbors | roomsensor/src/components/leds/GameOfLifePattern.cpp:146-159 | the nested offset loops return `Neighbours`, at most 8 |
| LedLife.NextCell | roomsensor/src/components/leds/GameOfLifePattern.cpp:79-86 | the next state of a cell is 0 or 1 |
| LedLife.NextCellRule | roomsensor/src/components/leds/GameOfLifePattern.cpp:79-86 | B3/S23: the next cell is live exactly when it has three live neighbours, or two and is live |
| LedLife.Stepped | roomsensor/src/components/leds/GameOfLifePattern.cpp:73-89 | the next generation has a cell for each cell of the grid |
| LedLife.SteppedAt | roomsensor/src/components/leds/GameOfLifePattern.cpp:74-88 | the next generation holds, at each cell's column-major index, that cell's B3/S23 successor, and only 0s and 1s |
| LedLife.EvolveCell | roomsensor/src/components/leds/GameOfLifePattern.cpp:87 | writing cell (r, c) extends the written part of the generation by that cell |
| LedLife.EvolveDone | roomsensor/src/components/leds/GameOfLifePattern.cpp:75-89 | after the last row every cell of the generation is written |
| LedLife.SeedStart | roomsensor/src/components/leds/GameOfLifePattern.cpp:138 | a zero seed is replaced by 0xA5A5A5A5 and any other is kept |
| LedLife.RandomCell | roomsensor/src/components/leds/GameOfLifePattern.cpp:142 | a drawn cell is 0 or 1 |
| LedLife.RandomGrid | roomsensor/src/components/leds/GameOfLifePattern.cpp:133-144 | the drawn grid has one 0-or-1 cell per cell of the strip |
| LedLife.RandomGridZeroSeed | roomsensor/src/components/leds/GameOfLifePattern.cpp:138 | a zero seed draws the same grid as 0xA5A5A5A5 |
| LedLife.RandomGridPrefix | roomsensor/src/components/leds/GameOfLifePattern.cpp:139-143 | the grid drawn for fewer cells is a prefix of the one drawn for more: cell i depends only on the generator's first i+1 states |
| LedLife.StepInterval | roomsensor/src/components/leds/GameOfLifePattern.cpp:47-50 | the interval is 0 exactly when the speed is 100 or more; otherwise it is 800000 - 6000*speed us (speed clamped at 0), between 206 ms and 800 ms |
| LedLife.StepIntervalDecreasing | roomsensor/src/components/leds/GameOfLifePattern.cpp:47-50 | a higher speed never waits longer |
| LedLife.Resized | roomsensor/src/components/leds/GameOfLifePattern.cpp:63-71 | after the resize check the grid has one cell per cell of the strip |
| LedLife.AdvanceStages | roomsensor/src/components/leds/GameOfLifePattern.cpp:43-131 | a generation on a non-empty grid is the gate, the resize, the evolution and the settling, in that order |
| LedLife.AdvanceWaits | roomsensor/src/components/leds/GameOfLifePattern.cpp:51-56 | before the interval has passed `update` changes nothing |
| LedLife.AdvanceExtinct | roomsensor/src/components/leds/GameOfLifePattern.cpp:91-99 | in random mode a generation with no live cell is replaced by a fresh random grid from the reseed seed, with no history and the repeat timer cleared |
| LedLife.AdvanceShifts | roomsensor/src/components/leds/GameOfLifePattern.cpp:100-128 | a kept generation shifts the history: the grid two back is the one that was one back, the one back is the old grid, the old grid becomes the scratch buffer, and the repeat timer is cleared in random mode and untouched in simple mode |
| LedLife.SteppedBinary | roomsensor/src/components/leds/GameOfLifePattern.cpp:73-89 | every cell of a generation is 0 or 1 |
| LedLife.AdvanceKeepsShape | roomsensor/src/components/leds/GameOfLifePattern.cpp:43-131 | `update` keeps the two buffers the same size and every cell 0 or 1 |
| LedLife.Blinker | roomsensor/src/components/leds/GameOfLifePattern.cpp:23-30 | the blinker grid has one cell per cell of the strip |
| LedLife.BlinkerCells | roomsensor/src/components/leds/GameOfLifePattern.cpp:23-30 | the blinker holds exactly three live cells: columns 1 to 3 of the middle row |
| LedLife.InitialGrid | roomsensor/src/components/leds/GameOfLifePattern.cpp:13-35 | the grid `reset` starts from has one cell per cell of the strip |
| LedLife.Life.constructor | roomsensor/src/components/leds/GameOfLifePattern.h:37-49 | a new pattern has empty buffers and history, both timestamps 0, speed 50 and random mode |
| LedLife.Life.SetSpeed | roomsensor/src/components/leds/GameOfLifePattern.h:15 | the speed is stored as given; it is clamped only where it is used |
| LedLife.Life.Randomize | roomsensor/src/components/leds/GameOfLifePattern.cpp:133-144 | both buffers take the strip's size, the grid is `RandomGrid` of the seed, and the scratch buffer is cleared |
| LedLife.Life.Evolve | roomsensor/src/components/leds/GameOfLifePattern.cpp:73-89 | the scratch buffer receives `Stepped` of the current grid |
| LedLife.Life.Seed | roomsensor/src/components/leds/GameOfLifePattern.cpp:13-35 | the grid becomes `InitialGrid` (the blinker for simple mode on a grid of at least one row and five columns, a random grid from the pin seed otherwise) and the scratch buffer is cleared |
| LedLife.Life.Reset | roomsensor/src/components/leds/GameOfLifePattern.cpp:8-41 | simple mode is chosen exactly when the start string equals SIMPLE ignoring case; the grid is seeded accordingly, the history cleared, the step time set to now and the repeat timer cleared |
| LedLife.Life.Restart | roomsensor/src/components/leds/GameOfLifePattern.cpp:22-39 | once the mode is decided: the grid is seeded, the history cleared, the step time set to now and the repeat timer cleared |
| LedLife.Life.Finish | roomsensor/src/components/leds/GameOfLifePattern.cpp:91-128 | the end of a generation is `Settle`: reseed on extinction or after 10 s of repetition in random mode, otherwise the history shift and buffer swap |
| LedLife.Life.Reseed | roomsensor/src/components/leds/GameOfLifePattern.cpp:95-99 | a reseed draws a random grid from the folded clock plus 0x9E3779B9 and clears the history and the repeat timer |
| LedLife.Life.Resize | roomsensor/src/components/leds/GameOfLifePattern.cpp:63-71 | when the strip's grid no longer matches, fresh buffers, a random grid from the pin seed and no history; otherwise nothing changes |
| LedLife.Life.Generation | roomsensor/src/components/leds/GameOfLifePattern.cpp:63-128 | one generation on a non-empty grid: resize, evolve, settle |
| LedLife.Life.Update | roomsensor/src/components/leds/GameOfLifePattern.cpp:43-131 | the new state is `Advance` of the old one: unchanged before the interval, only the step time recorded on an empty grid, otherwise one full generation |
| LedSolid.CountOn | air/src/components/leds/SolidPattern.cpp:53-62 | a pattern lights no more pixels than it has |
| LedSolid.CountOnAppend | air/src/components/leds/SolidPattern.cpp:53-62 | the lit count of two runs is the sum of their lit counts |
| LedSolid.CountOnConst | air/src/components/leds/SolidPattern.cpp:14-31 | an all-off strip lights none of its pixels and an all-on strip all of them |
| LedSolid.Acc | air/src/components/leds/SolidPattern.cpp:54-59 | the spreading accumulator always stays below the strip length |
| LedSolid.Spread | air/src/components/leds/SolidPattern.cpp:55-59 | the spreading loop decides one pixel per step |
| LedSolid.SpreadBalance | air/src/components/leds/SolidPattern.cpp:54-59 | the accumulator's bookkeeping: after n steps, n*on is the strip length for each lit step plus what the accumulator holds |
| LedSolid.SpreadPrefix | air/src/components/leds/SolidPattern.cpp:53-62 | among the first n steps exactly n*on/total light their pixel: the lit pixels are spaced as evenly as whole pixels allow |
| LedSolid.SpreadTotal | air/src/components/leds/SolidPattern.cpp:53-62 | one pass over the strip lights exactly on_count pixels |
| LedSolid.StepOf | air/src/components/leds/SolidPattern.cpp:56 | the loop step that writes a position lies within the pass |
| LedSolid.ChaseWrap | air/src/components/leds/SolidPattern.cpp:56 | (i + offset) mod total is i + (offset mod total), less one wrap when that reaches total |
| LedSolid.StepOfPosition | air/src/components/leds/SolidPattern.cpp:56 | step i writes a position on the strip, and that position's step is i |
| LedSolid.StepOfInverse | air/src/components/leds/SolidPattern.cpp:56 | each position is the one its step writes, so the pass writes every pixel exactly once |
| LedSolid.Rotated | air/src/components/leds/SolidPattern.cpp:55-61 | the rotated pattern covers the whole strip |
| LedSolid.RotatedCount | air/src/components/leds/SolidPattern.cpp:55-61 | the chase offset does not change how many pixels are lit |
| LedSolid.ChaseShifts | air/src/components/leds/SolidPattern.cpp:49-61 | one chase step moves the whole lit pattern one position along the strip |
| LedSolid.OnCount | air/src/components/leds/SolidPattern.cpp:22-23 | below full brightness fewer pixels are lit than the strip holds |
| LedSolid.AdvanceIntervalUs | air/src/components/leds/SolidPattern.cpp:39-45 | the chase interval for speeds 1 to 99 lies between 10 ms and 200 ms |
| LedSolid.IntervalShrinks | air/src/components/leds/SolidPattern.cpp:39-45 | a higher speed never waits longer between chase steps |
| LedSolid.Chased | air/src/components/leds/SolidPattern.cpp:32-51 | an update changes only the chase offset and its time stamp (colour, brightness and speed unchanged) |
| LedSolid.Mask | air/src/components/leds/SolidPattern.cpp:14-62 | an update decides one pixel per position of the strip |
| LedSolid.Paint | air/src/components/leds/SolidPattern.cpp:15-61 | painting decides one pixel per position |
| LedSolid.MaskCount | air/src/components/leds/SolidPattern.cpp:14-62 | at brightness 0 or below no pixel is lit, at 100 or above every pixel is, and in between exactly total*brightness/100 |
| LedSolid.ChaseOffset | air/src/components/leds/SolidPattern.cpp:32-51 | when the update spreads and its interval has passed, the offset moves by one modulo the strip and the time is stamped; at speed 0 or below the state is unchanged; the offset stays within the strip |
| LedSolid.PaintAt | air/src/components/leds/SolidPattern.cpp:60-61 | a lit position gets the colour and any other position black |
| LedSolid.SolidPattern.constructor | air/src/components/leds/SolidPattern.h:29-34 | a new pattern has no colour, black, brightness 100, speed 100 and no chase history |
| LedSolid.SolidPattern.SetSolidColor | air/src/components/leds/SolidPattern.h:14-16 | the colour is recorded and the pattern starts drawing |
| LedSolid.SolidPattern.SetBrightnessPercent | air/src/components/leds/SolidPattern.h:17-21 | the brightness is clamped to 0..100 |
| LedSolid.SolidPattern.SetSpeedPercent | air/src/components/leds/SolidPattern.h:22-26 | the speed is clamped to 0..100 |
| LedSolid.SolidPattern.Update | air/src/components/leds/SolidPattern.cpp:10-63 | before a colour is set nothing changes; otherwise the state becomes `Chased` and the strip becomes `Paint` of `Mask`, each pixel lit in the colour or black |
| LedSolid.SolidPattern.Advance | air/src/components/leds/SolidPattern.cpp:32-51 | the chase step leaves the state `Chased` |
| LedSolid.Fill | air/src/components/leds/SolidPattern.cpp:14-31 | the all-on and all-off loops paint every pixel the same way |
| LedSolid.DrawSpread | air/src/components/leds/SolidPattern.cpp:53-62 | the spreading loop paints the strip with the rotated spread pattern, writing each of the total positions exactly once |
| ButtonsPuzzle.ButtonColor | surprise/src/surprise/main/ButtonsPuzzleApp.cpp:55-69 | button 1 shows green, 2 blue, 3 red and 4 yellow: red is full exactly for buttons 3 and 4, green for 1 and 4, blue for 2 |
| ButtonsPuzzle.RecognizeKnown | surprise/src/surprise/main/ButtonsPuzzleApp.cpp:71-142 | each of the nine recognised sequences starts its behaviour, with the colours that behaviour is given |
| ButtonsPuzzle.RecognizeOther | surprise/src/surprise/main/ButtonsPuzzleApp.cpp:143-147 | a sequence shows the entered colours exactly when it is none of the nine recognised ones |
| ButtonsPuzzle.Press | surprise/src/surprise/main/ButtonsPuzzleApp.cpp:29-53 | a press keeps the puzzle well formed: four presses, four colour slots and a position below 4 |
| ButtonsPuzzle.PressRecords | surprise/src/surprise/main/ButtonsPuzzleApp.cpp:33-47 | a press records the button and its colour at the current position (position 0 after a complete sequence), moves the position on modulo 4, and otherwise keeps every other slot |
| ButtonsPuzzle.PressAfterFull | surprise/src/surprise/main/ButtonsPuzzleApp.cpp:33-36 | the first press after a complete sequence starts afresh: only its own position is filled and the entered colours are shown |
| ButtonsPuzzle.CheckOnWrap | surprise/src/surprise/main/ButtonsPuzzleApp.cpp:43-52 | the pattern is checked only when the position wraps to 0; before that the entered colours are shown |
| ButtonsPuzzle.FourPresses | surprise/src/surprise/main/ButtonsPuzzleApp.cpp:29-53 | four presses from a cleared puzzle record the four buttons in order, show their colours, return to position 0 and start the behaviour the sequence is recognised as |
| ButtonsPuzzle.PressKeepsProtocol | surprise/src/surprise/main/ButtonsPuzzleApp.cpp:29-53 | presses of the four buttons keep the recording protocol: the positions before the current one hold presses and the rest none, or a complete sequence waits at position 0 |
| ButtonsPuzzle.ButtonsPuzzleApp.constructor | surprise/src/surprise/main/ButtonsPuzzleApp.cpp:15-27 | a new puzzle is cleared: no presses, position 0, no colours and the four-colour behaviour |
| ButtonsPuzzle.ButtonsPuzzleApp.ResetState | surprise/src/surprise/main/ButtonsPuzzleApp.cpp:150-158 | the position returns to 0, every press becomes -1, the colours are cleared and the four-colour behaviour is shown |
| ButtonsPuzzle.ButtonsPuzzleApp.CheckPattern | surprise/src/surprise/main/ButtonsPuzzleApp.cpp:71-148 | the behaviour becomes the one the recorded sequence is recognised as |
| ButtonsPuzzle.ButtonsPuzzleApp.HandleButtonPress | surprise/src/surprise/main/ButtonsPuzzleApp.cpp:29-53 | the new state is `Press` of the old one with the given button and colour |
| ButtonsPuzzle.ButtonsPuzzleApp.OnButtonPressed | surprise/src/surprise/main/ButtonsPuzzleApp.cpp:55-69 | a button press is `Press` with that button's colour |
| Bme280.GuardsBeforeInit | roomsensor/src/components/i2c/bme280_sensor.cpp:30-59 | before initialisation no measurement register 0xF7..0xFE can be read, the chip-ID and calibration registers can, and exactly the reset and three control registers can be written |
| Bme280.LeWord | roomsensor/src/components/i2c/bme280_sensor.cpp:191-203 | a calibration word has the first byte as its low byte and the second as its high byte |
| Bme280.DigH4AsWritten | roomsensor/src/components/i2c/bme280_sensor.cpp:216 | `dig_H4` as the code assembles it is a 12-bit value in 0..4095 |
| Bme280.DigH4 | roomsensor/src/components/i2c/bme280_sensor.cpp:216 | `dig_H4` as the signed 12-bit datasheet value: the low nibble of 0xE5 below the sign-extended 0xE4, agreeing with the code whenever 0xE4 is below 0x80 |
| Bme280.DigH5AsWritten | roomsensor/src/components/i2c/bme280_sensor.cpp:217 | `dig_H5` as the code assembles it is a 12-bit value in 0..4095 |
| Bme280.DigH5 | roomsensor/src/components/i2c/bme280_sensor.cpp:217 | `dig_H5` as the signed 12-bit datasheet value: the high nibble of 0xE5 below the sign-extended 0xE6, agreeing with the code whenever 0xE6 is below 0x80 |
| Bme280.DigH4SignLost | roomsensor/src/components/i2c/bme280_sensor.cpp:216-217 | for the registers 0xFF 0xFF the code reads 4095 where the signed value is -1 |
| Bme280.DecodeH | roomsensor/src/components/i2c/bme280_sensor.cpp:205-218 | the decoded humidity calibration has signed 12-bit `dig_H4` and `dig_H5` (the corrected `DigH4`/`DigH5`, not the code's unsigned assembly) |
| Bme280.DecodeCalib | roomsensor/src/components/i2c/bme280_sensor.cpp:182-222 | the decoded calibration has signed 12-bit `dig_H4` and `dig_H5`, built by the corrected `DigH4`/`DigH5` |
| Bme280.Bits16 | roomsensor/src/components/i2c/bme280_sensor.cpp:192-203 | every signed 16-bit value has the word that reads back as it |
| Bme280.Split | roomsensor/src/components/i2c/bme280_sensor.cpp:191-203 | every word splits into two bytes that read back as it |
| Bme280.DecodeTRoundTrip | roomsensor/src/components/i2c/bme280_sensor.cpp:191-193 | the temperature calibration read from its encoding is the one encoded |
| Bme280.DecodePRoundTrip | roomsensor/src/components/i2c/bme280_sensor.cpp:195-203 | the pressure calibration read from its encoding is the one encoded |
| Bme280.TwelveBitRoundTrip | roomsensor/src/components/i2c/bme280_sensor.cpp:216-217 | every pair of signed 12-bit values has register bytes that the corrected `DigH4`/`DigH5` decode back to them, sharing 0xE5 |
| Bme280.DecodeHRoundTrip | roomsensor/src/components/i2c/bme280_sensor.cpp:205-218 | the humidity calibration read from its encoding by the corrected decode is the one encoded |
| Bme280.CalibRoundTrip | roomsensor/src/components/i2c/bme280_sensor.cpp:182-222 | the whole calibration read from its two register blocks by the corrected decode is the one encoded |
| Bme280.Raw20 | roomsensor/src/components/i2c/bme280_sensor.cpp:232-235 | a 20-bit raw reading is below 2^20 |
| Bme280.Raw20RoundTrip | roomsensor/src/components/i2c/bme280_sensor.cpp:232-235 | every 20-bit reading is rebuilt from the three register bytes it occupies |
| Bme280.Raw20Fields | roomsensor/src/components/i2c/bme280_sensor.cpp:232-235 | the raw reading keeps the MSB, the LSB and the high nibble of XLSB |
| Bme280.Raw16 | roomsensor/src/components/i2c/bme280_sensor.cpp:238 | the raw humidity has the first byte as its high byte and the second as its low byte |
| Bme280.TFineAtT1 | roomsensor/src/components/i2c/bme280_sensor.cpp:253-258 | `t_fine` is 0 at the raw temperature `dig_T1 * 16` |
| Bme280.TemperatureOf | roomsensor/src/components/i2c/bme280_sensor.cpp:259 | the temperature in 1/100 degree is `(t_fine * 5 + 128) >> 8`, the floor of that quotient |
| Bme280.TemperatureMonotone | roomsensor/src/components/i2c/bme280_sensor.cpp:259 | a larger `t_fine` never gives a lower temperature |
| Bme280.CompensatePressure | roomsensor/src/components/i2c/bme280_sensor.cpp:262-283 | a zero divisor gives pressure 0 instead of a division |
| Bme280.PressureWithoutP1 | roomsensor/src/components/i2c/bme280_sensor.cpp:270-274 | with `dig_P1` 0 the pressure is 0 |
| Bme280.HumidityOf | roomsensor/src/components/i2c/bme280_sensor.cpp:295-298 | the humidity is 0 for an accumulator at or below 0, 100 %RH (102400) at or above 419430400, and the accumulator shifted right by 12 in between |
| Bme280.HumidityMonotone | roomsensor/src/components/i2c/bme280_sensor.cpp:295-298 | a larger accumulator never gives a lower humidity |
| Bme280.CompensateHumidity | roomsensor/src/components/i2c/bme280_sensor.cpp:285-299 | the humidity never exceeds 100 %RH |
| Bme280.Compensate | roomsensor/src/components/i2c/bme280_sensor.cpp:224-251 | the reading's `t_fine` comes from the temperature bytes 3..5, the temperature from `t_fine`, the pressure is a 32-bit value and the humidity at most 100 %RH |
| Bme280.Sensor.constructor | roomsensor/src/components/i2c/bme280_sensor.cpp:7-16 | a new sensor is uninitialised, with zero calibration, `t_fine` and readings, and nothing written |
| Bme280.Sensor.ReadRegister | roomsensor/src/components/i2c/bme280_sensor.cpp:30-47 | before initialisation a register outside the chip-ID and calibration registers is INVALID_STATE; otherwise the bus result is returned |
| Bme280.Sensor.WriteRegister | roomsensor/src/components/i2c/bme280_sensor.cpp:49-67 | before initialisation a register other than reset and control is INVALID_STATE and nothing is written; otherwise the write is issued and the bus result returned |
| Bme280.Sensor.ReadCalibrationData | roomsensor/src/components/i2c/bme280_sensor.cpp:182-222 | the first failing read's error is returned; on success the calibration is DecodeCalib of both blocks, with the corrected signed `dig_H4`/`dig_H5`; a failed first read changes nothing; a failed second read keeps the temperature, pressure and `dig_H1` values of the first |
| Bme280.Sensor.CompensateTemperature | roomsensor/src/components/i2c/bme280_sensor.cpp:253-260 | `t_fine` is stored and the temperature is computed from it |
| Bme280.Sensor.ReadRawData | roomsensor/src/components/i2c/bme280_sensor.cpp:224-251 | an uninitialised sensor is INVALID_STATE; a bus error is returned; either leaves the reading as it was; on success the reading is Compensate of the calibration and the bytes |
| Bme280.Sensor.Configure | roomsensor/src/components/i2c/bme280_sensor.cpp:103-154 | the configuration succeeds exactly when the chip ID is 0x60 and every transfer succeeds, having then written reset, the humidity control, the measurement control and the config register in that order and read the calibration; on a failure the bus holds the writes up to and including the failed one (none when the chip ID fails), and the calibration is unchanged, partly read (temperature, pressure, `dig_H1`) or fully read according to which read succeeded |
| Bme280.Sensor.WriteControl | roomsensor/src/components/i2c/bme280_sensor.cpp:133-154 | the three control writes succeed exactly when all three transfers do; they go out in order, and a failed write ends the sequence after itself |
| Bme280.Sensor.Init | roomsensor/src/components/i2c/bme280_sensor.cpp:74-163 | an initialised sensor answers true and changes nothing, readings included; otherwise it becomes initialised exactly when the bus handle, the device, the chip ID and every transfer are good, having written the init sequence, read the calibration, and taken the first reading when the poll succeeds (a failed poll keeps the readings); a failed init keeps the readings, writes nothing without a bus handle or device, and otherwise leaves the writes and calibration Configure describes |
| Bme280.Sensor.Poll | roomsensor/src/components/i2c/bme280_sensor.cpp:165-180 | an uninitialised sensor or a bus error leaves the reading; otherwise the reading is Compensate of the bytes |
| ConsoleBuffer.FromLEOfLE | roomsensor/src/components/serial_console/console_buffer.c:8-13 | a number below 256^n written as n little-endian bytes reads back as itself |
| ConsoleBuffer.Header | roomsensor/src/components/serial_console/console_buffer.c:8-13 | the packed record header is 11 bytes |
| ConsoleBuffer.HeaderLen | roomsensor/src/components/serial_console/console_buffer.c:11 | the length read from a header is at most 65535 |
| ConsoleBuffer.HeaderRoundTrip | roomsensor/src/components/serial_console/console_buffer.c:8-13 | the timestamp, direction and length read from a record's header are the record's own |
| ConsoleBuffer.SerializeSnoc | roomsensor/src/components/serial_console/console_buffer.c:96-116 | the bytes of the records with one more appended are the old bytes, then its header, then its payload |
| ConsoleBuffer.WrapAdd | roomsensor/src/components/serial_console/console_buffer.c:30-34 | `wrap_add` stays below the modulus, adds when the sum is below it, and subtracts the modulus once otherwise |
| ConsoleBuffer.FreeSpace | roomsensor/src/components/serial_console/console_buffer.c:88-90 | the free space is the capacity less one less the bytes between tail and head |
| ConsoleBuffer.HoldsRead | roomsensor/src/components/serial_console/console_buffer.c:128-150 | reading n bytes at the tail in one copy, or two when they wrap, yields the first n bytes the ring holds |
| ConsoleBuffer.HoldsDrop | roomsensor/src/components/serial_console/console_buffer.c:55-71 | moving the tail past n bytes leaves the ring holding the rest |
| ConsoleBuffer.HoldsAppend | roomsensor/src/components/serial_console/console_buffer.c:96-116 | writing bytes at the head, wrapping at the end of the array, appends them to what the ring holds while one byte stays free |
| ConsoleBuffer.AppendRecord | roomsensor/src/components/serial_console/console_buffer.c:96-116 | writing a header and then its payload appends that record to the records the ring holds |
| ConsoleBuffer.SerializeFirst | roomsensor/src/components/serial_console/console_buffer.c:55-71 | the bytes of the records start with the first record's header, followed after its payload by the bytes of the rest |
| ConsoleBuffer.DropStep | roomsensor/src/components/serial_console/console_buffer.c:55-71 | advancing the tail by the header and the length it records drops exactly the oldest record |
| ConsoleBuffer.HoldsEmpty | roomsensor/src/components/serial_console/console_buffer.c:56 | the ring's tail equals its head exactly when it holds no record |
| ConsoleBuffer.RecordAt | roomsensor/src/components/serial_console/console_buffer.c:126-150 | at a record boundary the header and then the payload read there are the next record's, and the rest follow |
| ConsoleBuffer.DecodeRecord | roomsensor/src/components/serial_console/console_buffer.c:127-152 | the timestamp, direction and payload handed to the callback rebuild the stored record |
| ConsoleBuffer.RoomFacts | roomsensor/src/components/serial_console/console_buffer.c:87-94 | when the free space covers the record nothing is evicted and it fits; otherwise the ring is not empty and the oldest record goes |
| ConsoleBuffer.StoredLenAsWritten | roomsensor/src/components/serial_console/console_buffer.c:80 | as written the stored length is the data length capped only at 65535 |
| ConsoleBuffer.StoredLen | roomsensor/src/components/serial_console/console_buffer.c:80-82 | the stored length is at most the data length and 65535, lets header and payload fit an empty ring with one byte free, and equals the written cap whenever that already fits |
| ConsoleBuffer.OversizeRecordAsWritten | roomsensor/src/components/serial_console/console_buffer.c:80-116 | in an empty 4096-byte ring a 4085-byte record ends its write at the tail, so the ring reads as empty; a payload of 8182 bytes overruns the array |
| ConsoleBuffer.Evict | roomsensor/src/components/serial_console/console_buffer.c:87-94 | the records kept are a suffix of the old ones that leaves room for the new record with one byte free; nothing is dropped when it already fits |
| ConsoleBuffer.EvictMinimal | roomsensor/src/components/serial_console/console_buffer.c:87-94 | only what must go is dropped: keeping one more old record would not have left room |
| ConsoleBuffer.VisitShape | roomsensor/src/components/serial_console/console_buffer.c:121-157 | the records visited are a prefix of those stored, none but the last asked to stop, and the visit ends early only when the last one did |
| ConsoleBuffer.Ring.constructor | roomsensor/src/components/serial_console/console_buffer.c:24 | a new ring is not initialised |
| ConsoleBuffer.Ring.Init | roomsensor/src/components/serial_console/console_buffer.c:36-53 | an initialised ring answers true and changes nothing; otherwise a failed allocation fails; an allocation resets head and tail with capacity at least 4096 and initialises exactly when the mutex was created; the records are kept |
| ConsoleBuffer.Ring.DropOldest | roomsensor/src/components/serial_console/console_buffer.c:55-71 | an empty ring stays as it is; otherwise exactly the oldest record is dropped |
| ConsoleBuffer.Ring.CopyIn | roomsensor/src/components/serial_console/console_buffer.c:97-116 | one copy into the array, split at its end, writes the bytes at the position and returns the position after them |
| ConsoleBuffer.Ring.WriteRecord | roomsensor/src/components/serial_console/console_buffer.c:96-116 | with room for it, the record is appended after the others |
| ConsoleBuffer.Ring.MakeRoom | roomsensor/src/components/serial_console/console_buffer.c:87-94 | the loop drops the oldest records exactly as Evict does, leaving room for the record |
| ConsoleBuffer.Ring.Append | roomsensor/src/components/serial_console/console_buffer.c:73-119 | NULL or empty data changes nothing; a ring that cannot be initialised stays empty; otherwise the oldest records are evicted and the record with the time, the direction and the corrected stored length of the data (`StoredLen`, not the code's 65535-only cap) is appended |
| ConsoleBuffer.Ring.Store | roomsensor/src/components/serial_console/console_buffer.c:82-116 | the oldest records are evicted as needed and the record is appended |
| ConsoleBuffer.Ring.CopyOut | roomsensor/src/components/serial_console/console_buffer.c:128-150 | one copy out of the array, split at its end, reads the bytes at the position and returns the position after them |
| ConsoleBuffer.Ring.ReadHeader | roomsensor/src/components/serial_console/console_buffer.c:127-136 | at a record boundary the header read is the next record's and records its payload length |
| ConsoleBuffer.Ring.ReadPayload | roomsensor/src/components/serial_console/console_buffer.c:140-151 | after the header, the payload read completes the next record and leaves the position at the following one |
| ConsoleBuffer.Ring.Iterate | roomsensor/src/components/serial_console/console_buffer.c:121-157 | no callback or an uninitialised ring visits nothing; otherwise the records are visited oldest first as Visit says, until the callback asks to stop, the records run out or an allocation fails |
| I2cExt.BitChar | leds/src/espamp/main/i2c_master_ext.c:75 | a bit is written `1` exactly when it is 1, and `0` otherwise |
| I2cExt.BinaryDigits | leds/src/espamp/main/i2c_master_ext.c:71-102 | the binary text of n at width w has w characters, each `0` or `1` |
| I2cExt.BinaryValue | leds/src/espamp/main/i2c_master_ext.c:71-102 | the value of w binary digits is below 2^w |
| I2cExt.BinaryRoundTrip | leds/src/espamp/main/i2c_master_ext.c:71-102 | reading back the binary text of a number below 2^w gives the number |
| I2cExt.BinaryDigitsInjective | leds/src/espamp/main/i2c_master_ext.c:71-102 | distinct numbers below 2^w have distinct binary texts |
| I2cExt.BinaryDigitAt | leds/src/espamp/main/i2c_master_ext.c:74-77 | character i of the text is bit w-1-i of the number, most significant first |
| I2cExt.BinaryBuffer.constructor | leds/src/espamp/main/i2c_master_ext.c:47-59 | a binary buffer holds width characters plus the terminator |
| I2cExt.BinaryBuffer.Render | leds/src/espamp/main/i2c_master_ext.c:71-102 | the loop fills the buffer with the binary text of n and the terminator, and the text read back is n |
| I2cExt.LeValue | leds/src/espamp/main/i2c_master_ext.c:160-211 | the value of n little-endian bytes is below 2^(8n) |
| I2cExt.LeBytes | leds/src/espamp/main/i2c_master_ext.c:319-321 | a value written as n little-endian bytes takes n bytes |
| I2cExt.LeRoundTrip | leds/src/espamp/main/i2c_master_ext.c:160-211 | a value below 2^(8n) written as n little-endian bytes reads back as itself |
| I2cExt.LeBytesRoundTrip | leds/src/espamp/main/i2c_master_ext.c:160-211 | n bytes read as a value and written back are the same bytes |
| I2cExt.Uint16Of | leds/src/espamp/main/i2c_master_ext.c:160 | the 16-bit read has the first byte low and the second high |
| I2cExt.Uint32Of | leds/src/espamp/main/i2c_master_ext.c:211 | the 32-bit read is the little-endian value of the four bytes, whose encoding gives them back |
| I2cExt.WriteUint8Frame | leds/src/espamp/main/i2c_master_ext.c:301-311 | the 8-bit write sends the register and then the data byte |
| I2cExt.WriteUint16Frame | leds/src/espamp/main/i2c_master_ext.c:314-328 | the 16-bit write sends the register, then the low and the high byte of the data |
| I2cExt.Word16Frame | leds/src/espamp/main/i2c_master_ext.c:289-299 | the 16-bit command is sent as its two little-endian bytes |
| I2cExt.WriteReadUint16 | leds/src/espamp/main/i2c_master_ext.c:150-163 | the data bytes of a 16-bit write read back as the data through the 16-bit read |
| I2cExt.Bus.constructor | leds/src/espamp/main/i2c_master_ext.c:330-350 | a new bus has issued no transfer |
| I2cExt.Bus.Issue | leds/src/espamp/main/i2c_master_ext.c:141-323 | a transfer is recorded and the bus result returned |
| I2cExt.Bus.ReadUint8 | leds/src/espamp/main/i2c_master_ext.c:135-148 | a NULL handle or data pointer is INVALID_ARG with no transfer and the data untouched; otherwise one register read of 1 byte, with its result, storing the byte only on success |
| I2cExt.Bus.ReadUint16 | leds/src/espamp/main/i2c_master_ext.c:150-163 | argument check as above; one register read of 2 bytes, storing their little-endian value only on success |
| I2cExt.Bus.ReadUint32 | leds/src/espamp/main/i2c_master_ext.c:201-214 | argument check as above; one register read of 4 bytes, storing their little-endian value only on success |
| I2cExt.Bus.ReadBlock | leds/src/espamp/main/i2c_master_ext.c:165-274 | the byte-array reads: argument check as above; one transfer of the register bytes reading the requested count into the data |
| I2cExt.Bus.WriteCmd | leds/src/espamp/main/i2c_master_ext.c:277-299 | a NULL handle is INVALID_ARG with no transfer; otherwise the 8-bit command, or the 16-bit command's little-endian bytes, is sent and the bus result returned |
| I2cExt.Bus.WriteUint8 | leds/src/espamp/main/i2c_master_ext.c:301-311 | a NULL handle is INVALID_ARG with no transfer; otherwise the register and data frame is sent |
| I2cExt.Bus.WriteUint16 | leds/src/espamp/main/i2c_master_ext.c:314-328 | a NULL handle is INVALID_ARG with no transfer; otherwise the register, low and high byte frame is sent |
| Keypad.EndsWithAppend | roomsensor/src/components/i2c/mcp23088_keypad.cpp:12-18 | a name built as front plus suffix ends with the suffix, and a name ending with it splits as front plus suffix |
| Keypad.ExtractBase | roomsensor/src/components/i2c/mcp23088_keypad.cpp:20-30 | a base is extracted exactly when the name ends with the suffix and is longer than it, and then it is non-empty and rebuilds the name with the suffix |
| Keypad.ExtractBaseOf | roomsensor/src/components/i2c/mcp23088_keypad.cpp:20-30 | the base of `<base><suffix>` is `<base>` for every non-empty base |
| Keypad.DoorRole | roomsensor/src/components/i2c/mcp23088_keypad.cpp:57-63 | a name is a door switch exactly when it has a non-empty base before `.door.unlock` (checked first) or `.door.lock`, and the role says which |
| Keypad.LockNameIsNotUnlock | roomsensor/src/components/i2c/mcp23088_keypad.cpp:58-61 | `<base>.door.lock` is read as the lock switch of `<base>`, never as an unlock switch |
| Keypad.Desired | roomsensor/src/components/i2c/mcp23088_keypad.cpp:69-75 | while the override is active an unlock switch is ON and a lock switch OFF; otherwise the switch mirrors its base state, OFF when none is set |
| Keypad.KeypadPin | roomsensor/src/components/i2c/mcp23088_keypad.cpp:47-85 | only the effective switch state of a pin can change; a pin that is not a switch or has no door name is left alone; a door switch ends with its state set |
| Keypad.OverrideOpensUnlock | roomsensor/src/components/i2c/mcp23088_keypad.cpp:65-72 | a closed override contact turns the door's unlock switch ON |
| Keypad.OverrideReleasesLock | roomsensor/src/components/i2c/mcp23088_keypad.cpp:65-74 | a closed override contact turns the door's lock switch OFF |
| Keypad.NoOverrideMirrorsBase | roomsensor/src/components/i2c/mcp23088_keypad.cpp:69-75 | without an active override a door switch is set ON exactly when its base state is set and ON |
| Keypad.KeypadPinStable | roomsensor/src/components/i2c/mcp23088_keypad.cpp:47-85 | changing the effective switch states of other pins does not change the outcome for a pin, so the pins may be visited in order |
| Keypad.IsOverrideActiveForBase | roomsensor/src/components/i2c/mcp23088_keypad.cpp:32-45 | the loop answers true exactly when some SENSOR pin named `<base>.door.override` has a closed contact |
| Keypad.UpdateDoorSwitch | roomsensor/src/components/i2c/mcp23088_keypad.cpp:52-81 | one loop step sets pin i to its KeypadPin value and reports a change exactly when the pin differs |
| Keypad.ProgressStep | roomsensor/src/components/i2c/mcp23088_keypad.cpp:51-82 | after the first n pins are updated the outcome for pin n is unchanged, and updating it extends the progress |
| Keypad.ChangedStep | roomsensor/src/components/i2c/mcp23088_keypad.cpp:77-80 | the change flag after step n is the old flag or a change at pin n |
| Keypad.ChangedAll | roomsensor/src/components/i2c/mcp23088_keypad.cpp:84 | some pin changed exactly when the pins differ from the original |
| Keypad.ApplyLockKeypadLogic | roomsensor/src/components/i2c/mcp23088_keypad.cpp:47-85 | every pin ends as KeypadPin of the original pins, and the result is true exactly when any pin changed |
| Lis2dh.WithDataRate | roomsensor/src/components/i2c/lis2dh.c:121-131 | the new CTRL_REG1 carries the rate's code in bits 7:4 and keeps bits 3:0 of the old value |
| Lis2dh.DataRateLastWins | roomsensor/src/components/i2c/lis2dh.c:127-128 | setting a rate twice leaves the register as setting only the later rate would |
| Lis2dh.WithScale | roomsensor/src/components/i2c/lis2dh.c:133-141 | the new CTRL_REG4 carries the scale's code in bits 5:4, has BDU and HR (0x88) set, and keeps bits 6 and 2:0 |
| Lis2dh.ScaleCodeInjective | roomsensor/src/components/i2c/lis2dh.c:139-141 | two scales that produce the same register from the same old value are the same scale |
| Lis2dh.WithMode | roomsensor/src/components/i2c/lis2dh.c:159-172 | LPen in CTRL_REG1 is set exactly for low-power mode, HR in CTRL_REG4 exactly for high-resolution mode, and every other bit of both registers is kept |
| Lis2dh.ModeRoundTrip | roomsensor/src/components/i2c/lis2dh.c:159-172 | the mode is recovered from the two registers after the update |
| Lis2dh.Axis | roomsensor/src/components/i2c/lis2dh.c:200-203 | an axis reading is a signed 12-bit value |
| Lis2dh.AxisRoundTrip | roomsensor/src/components/i2c/lis2dh.c:201-203 | every signed 12-bit value, left-justified into a little-endian register pair, decodes back to itself |
| Lis2dh.SensitivityMg | roomsensor/src/components/i2c/lis2dh.c:207-220 | a sensitivity exists exactly in high-resolution mode, and it is 1, 2, 4 or 12 mg per step |
| Lis2dh.SensitivityGrowsWithScale | roomsensor/src/components/i2c/lis2dh.c:210-215 | a wider range never has a finer step |
| Lis2dh.Driver.constructor | roomsensor/src/components/i2c/lis2dh.c:9-10 | the driver starts at the 2 g scale in high-resolution mode, having written nothing |
| Lis2dh.Driver.WriteRegister | roomsensor/src/components/i2c/lis2dh.c:47-55 | a register write is logged as written and returns the bus's result |
| Lis2dh.Driver.Init | roomsensor/src/components/i2c/lis2dh.c:66-119 | the result is the first failure among adding the device, reading WHO_AM_I, an unexpected id (INVALID_RESPONSE) and the three writes; on success CTRL_REG1 = 0x57, CTRL_REG4 = 0x88 and CTRL_REG2 = 0x09 were written in that order; a failure before the first write writes nothing, and a failed write is the last one issued (one write when CTRL_REG1 fails, two when CTRL_REG4 fails) |
| Lis2dh.Driver.SetDataRate | roomsensor/src/components/i2c/lis2dh.c:121-131 | a failed read writes nothing and returns its error; otherwise the updated CTRL_REG1 is written and the write's result returned |
| Lis2dh.Driver.SetScale | roomsensor/src/components/i2c/lis2dh.c:133-148 | as for the rate, on CTRL_REG4; the stored scale changes exactly when the call succeeds |
| Lis2dh.Driver.SetMode | roomsensor/src/components/i2c/lis2dh.c:150-182 | the first failure of the two reads and two writes is returned, the registers are written in order with the mode's bits, and the stored mode changes exactly when the call succeeds; a failed read writes nothing, and a failed CTRL_REG1 write is the only write issued |
| Lis2dh.Driver.GetAccel | roomsensor/src/components/i2c/lis2dh.c:184-230 | a failed read returns its error; in a mode other than high resolution INVALID_STATE; otherwise the three decoded axes and the scale's sensitivity |
| Lis2dh.Driver.DataReady | roomsensor/src/components/i2c/lis2dh.c:232-240 | data is available exactly when bit 3 (ZYXDA) of the status register is set, and only when the read succeeded |
| Metrics.StrcatText | roomsensor/src/main/metrics.cpp:20-35 | a buffer already at its limit is unchanged; otherwise its text becomes the old text followed by the source, cut to fit the buffer with its terminator |
| Metrics.StrcatShort | roomsensor/src/main/metrics.cpp:25-33 | with room left, exactly as many characters of the source are appended as fit before the terminator |
| Metrics.FitCat | roomsensor/src/main/metrics.cpp:63-70 | cutting after each append and cutting once at the end give the same text, so a chain of appends yields the whole concatenation cut to the buffer |
| Metrics.SafeStrcat | roomsensor/src/main/metrics.cpp:20-35 | a NULL buffer or source or a zero size change nothing; a full buffer is unchanged; otherwise the copy lands after the old text, is terminated, every other byte is kept, and the text read back is the bounded append |
| Metrics.CopyInto | roomsensor/src/main/metrics.cpp:31-33 | the copy loop stops at the room left or the end of the source and writes only that stretch of the buffer |
| Metrics.LastValue | roomsensor/src/main/metrics.cpp:44-52 | with no tag for the key the default is returned; otherwise the value of one of the key's tags |
| Metrics.LastValueWins | roomsensor/src/main/metrics.cpp:44-52 | the last tag for a key decides its value |
| Metrics.LastValueIsLookup | roomsensor/src/main/metrics.cpp:44-52 | when keys are distinct, the topic's tag scan agrees with the tag collection's lookup, with `unknown` for a missing key |
| Metrics.TopicTags | roomsensor/src/main/metrics.cpp:40-52 | area, room and id are the last values of those tags, `unknown` when absent |
| Metrics.Topic | roomsensor/src/main/metrics.cpp:61-70 | the topic is shorter than the 512-byte buffer, is `roomsensor/<metric>/<area>/<room>/<id>` whenever that fits, and is a prefix of it otherwise |
| Metrics.AppendAll | roomsensor/src/main/metrics.cpp:62-70 | appending the parts one by one to an empty buffer leaves their concatenation, cut to the buffer |
| Metrics.BuildMetricTopic | roomsensor/src/main/metrics.cpp:38-73 | a failed allocation gives NULL; otherwise the bounded topic built from the metric name and the area, room and id tags |
| Metrics.MetricsSystem.constructor | roomsensor/src/main/metrics.cpp:13 | no queue exists before initialisation |
| Metrics.MetricsSystem.Initialize | roomsensor/src/main/metrics.cpp:178-205 | the system is ready with an empty queue exactly when both the queue and the reporting task were created; otherwise FAIL and no queue |
| Metrics.MetricsSystem.ReportMetric | roomsensor/src/main/metrics.cpp:208-261 | INVALID_STATE without a queue, INVALID_ARG for a NULL name or tags, FAIL when the 50-entry queue is full, and otherwise the report is appended to the queue; a refused report leaves the queue unchanged |
| NetLog.Rank | roomsensor/src/main/netlog.cpp:19 | levels have the values 0 to 5 of `esp_log_level_t`, 0 exactly for `ESP_LOG_NONE` |
| NetLog.RankInjective | roomsensor/src/main/netlog.cpp:182 | the level comparison of the hook sees distinct levels as distinct values |
| NetLog.LevelName | roomsensor/src/main/netlog.cpp:83-92 | each level's topic segment is 4 to 7 characters long |
| NetLog.LevelNameInjective | roomsensor/src/main/netlog.cpp:83-92 | different levels are published under different topic segments |
| NetLog.LetterLevel | roomsensor/src/main/netlog.cpp:55-63 | the letters E, W, D and V select exactly the error, warning, debug and verbose levels, and any other letter leaves INFO |
| NetLog.LetterNamesLevel | roomsensor/src/main/netlog.cpp:56-61 | for each of the five log letters, the level's topic name starts with that letter in lower case |
| NetLog.Find | roomsensor/src/main/netlog.cpp:51 | `strchr` finds the first occurrence at or after the start, or reports none when there is none |
| NetLog.SkipColours | roomsensor/src/main/netlog.cpp:50-54 | the colour skip moves forward only, and stops at an escape when no `m` follows it |
| NetLog.SpaceEnd | roomsensor/src/main/netlog.cpp:71 | the space skip passes exactly the run of spaces |
| NetLog.LineLevel | roomsensor/src/main/netlog.cpp:43-63 | a NULL line reads as INFO, and no line reads as `ESP_LOG_NONE` |
| NetLog.TagSpan | roomsensor/src/main/netlog.cpp:65-75 | a tag span lies within the line, ends at a colon, holds no colon and does not start with a space |
| NetLog.LineTag | roomsensor/src/main/netlog.cpp:42-80 | the stored tag always fits its buffer with the terminator, and is empty when the line has no `) TAG:` shape |
| NetLog.LineTagShape | roomsensor/src/main/netlog.cpp:75-80 | the stored tag is the span's text cut to the buffer, holds no colon and does not start with a space |
| NetLog.WalkPrefix | roomsensor/src/main/netlog.cpp:48-75 | the pointer walk over the line yields the level and the tag span that the functions state |
| NetLog.ParseTagLevel | roomsensor/src/main/netlog.cpp:40-81 | the level is the line's level; a zero-length tag buffer is untouched; otherwise the buffer holds the line's tag and nothing past its terminator changes |
| NetLog.ParseLogLine | roomsensor/src/main/netlog.cpp:40-81 | from every line the ESP-IDF logger prints, with or without a colour code, the parse recovers the letter's level and the tag, cut to the buffer |
| NetLog.TrimNewlines | roomsensor/src/main/netlog.cpp:187-188 | the trimmed text is a prefix of the line that keeps everything but the trailing run of `\r` and `\n` |
| NetLog.LogItem | roomsensor/src/main/netlog.cpp:162-191 | the queued item's tag and message always fit their buffers |
| NetLog.LogMsg | roomsensor/src/main/netlog.cpp:163-191 | the queued message is a prefix of the formatted text, shorter than the line buffer, that does not end in a newline and drops only newlines |
| NetLog.LogItemOfLogLine | roomsensor/src/main/netlog.cpp:162-191 | a short printed line reaches the queue with its level, its tag and its text less the newline |
| NetLog.CopyMessage | roomsensor/src/main/netlog.cpp:187-191 | the message copied is the trimmed line cut to the 192-byte message buffer |
| NetLog.MacHex | roomsensor/src/main/netlog.cpp:118-119 | the MAC address prints as two characters per byte |
| NetLog.MacHexAt | roomsensor/src/main/netlog.cpp:118-119 | each byte reads back from its two hex digits |
| NetLog.MacHexInjective | roomsensor/src/main/netlog.cpp:118-119 | different addresses print differently |
| NetLog.LogTopic | roomsensor/src/main/netlog.cpp:121-122 | the topic is `sensor/`, the 12-digit MAC, `/logs/` and the level's name, and fits the 96-byte buffer |
| NetLog.LogTopicParts | roomsensor/src/main/netlog.cpp:121-122 | the topic's MAC and level segments are the address's hex form and the level's name |
| NetLog.LogTopicInjective | roomsensor/src/main/netlog.cpp:118-122 | each level of each device gets its own topic |
| NetLog.DroppedNoticeCount | roomsensor/src/main/netlog.cpp:127-133 | the dropped-lines notice for any 32-bit count fits its 128-byte buffer, and the count reads back from it |
| NetLog.Sink.constructor | roomsensor/src/main/netlog.cpp:24-28 | the sink starts with no queue, no task, no hook, the hook enabled, not publishing and nothing dropped |
| NetLog.Sink.InitEarly | roomsensor/src/main/netlog.cpp:201-223 | a missing queue that cannot be created gives NO_MEM; a missing task that cannot be created gives FAIL; otherwise OK with queue, task and hook in place; a complete sink is left unchanged |
| NetLog.Sink.Hook | roomsensor/src/main/netlog.cpp:141-199 | the original sink's result is always returned; disabled, ISR or queueless calls change nothing; a full queue counts one more dropped line, wrapping at 32 bits; otherwise the item is queued exactly when its level passes the network level and no publish is running |
| NetLog.Sink.Publish | roomsensor/src/main/netlog.cpp:94-139 | the oldest item is taken; without a MAC address nothing is published; otherwise a dropped-lines notice, when lines were dropped, and then the item's message go to the item's topic, and the dropped count is reset |
| Ota.HashStart | roomsensor/src/main/ota.cpp:116-118 | the hash starts just after the first `g`, and only when a character follows that `g` |
| Ota.HashPart | roomsensor/src/main/ota.cpp:120-130 | the copied hash is a prefix of the rest of the version, holds no `-`, is at most 32 characters, and stops only at a `-`, at the end or at the cap |
| Ota.GitHash | roomsensor/src/main/ota.cpp:106-156 | a NULL or empty version gives an empty hash; a version with a `g` followed by text gives the part after it; any other version comes back unchanged |
| Ota.ExtractGitHash | roomsensor/src/main/ota.cpp:106-156 | the result is the extracted hash, and the version is taken for a bare hash exactly when it has no usable `g` and is 4 to 12 alphanumeric characters |
| Ota.DescribeHash | roomsensor/src/main/ota.cpp:115-130 | in `git describe` form, `<prefix>g<hash>-<suffix>` with no `g` in the prefix, the hash of up to 32 characters comes back exactly |
| Ota.NoGUnchanged | roomsensor/src/main/ota.cpp:136-155 | a version without a `g` comes back unchanged |
| Ota.HashNoLonger | roomsensor/src/main/ota.cpp:106-156 | the extracted hash is never longer than the version |
| Ota.Decide | roomsensor/src/main/ota.cpp:342-449 | an upgrade starts exactly when both build times are known and the remote one is later; otherwise a factory build reports DEV_BUILD, and any other build NEWER exactly when both are known and the local one is later, else UP_TO_DATE |
| Ota.Announced | roomsensor/src/main/ota.cpp:378-448 | the status reported during the check is UPGRADING for an upgrade and the decided status otherwise |
| Ota.CheckUpdateResult | roomsensor/src/main/ota.cpp:265-454 | the check returns true exactly when the manifest text is non-NULL and non-empty, parses, has string `version` and `url` values, and carries a positive build time later than a known local one, and the download succeeded; every other manifest gives false |
| Ota.ReportStatus | roomsensor/src/main/ota.cpp:837-875 | no report before a manifest was seen; otherwise the remote hash is reported with DEV_BUILD on a factory build, and on any other build UPGRADING exactly when the remote build is later and NEWER exactly when it is earlier |
| Ota.ReportMatchesDecision | roomsensor/src/main/ota.cpp:342-449 | with a known local build time, the periodic report names the status the manifest check announced |
| Ota.UnknownLocalTimeDisagrees | roomsensor/src/main/ota.cpp:436-448 | without a local build time the manifest check reports UP_TO_DATE while the periodic report says UPGRADING for the same remote build |
| ProgramTool.Get | roomsensor/src/program.py:154 | a key is found exactly when some entry has it |
| ProgramTool.Put | roomsensor/src/program.py:157-159 | after the store the key has the new value and every other key keeps its value |
| ProgramTool.UpdateGet | roomsensor/src/program.py:155-156 | after `update`, a key of the overlay has the overlay's value and any other key keeps its old value |
| ProgramTool.MergeConfigs | roomsensor/src/program.py:150-160 | a missing overlay gives the base itself; otherwise the namespace-wise merge of the overlay into a copy of the base |
| ProgramTool.MergedOther | roomsensor/src/program.py:152-160 | a namespace the overlay does not name keeps its base value |
| ProgramTool.MergedGet | roomsensor/src/program.py:150-160 | for every namespace: two objects merge key-wise with the overlay winning, otherwise the overlay's value replaces the base's, and a namespace only in the base keeps its value |
| ProgramTool.EscapeStrIsOnePass | roomsensor/src/program.py:118-119 | because backslashes are doubled before quotes are escaped, the two passes together escape each backslash and quote exactly once |
| ProgramTool.QuotesFirstDoubleEscapes | roomsensor/src/program.py:119 | the opposite order would double the backslash put in front of a quote |
| ProgramTool.UnescapeEscape | roomsensor/src/program.py:118-119 | the escaped text reads back as the original text |
| ProgramTool.Infer | roomsensor/src/program.py:122-128 | a boolean is checked before an integer and becomes `u8` 1 or 0, an integer becomes `i32` and its decimal text, and anything else a quoted, escaped `str` |
| ProgramTool.InferReadsBack | roomsensor/src/program.py:122-128 | every boolean, integer and string value reads back from its type and text as itself, and any other value as its text |
| ProgramTool.StrReadsBack | roomsensor/src/program.py:128 | a quoted, escaped text reads back as the text |
| ProgramTool.SetCommands | roomsensor/src/program.py:142-144 | one `nvs_set` line per setting, in the namespace's order |
| ProgramTool.TableCommands | roomsensor/src/program.py:141-144 | the namespace line followed by the namespace's `nvs_set` lines |
| ProgramTool.BuildCommands | roomsensor/src/program.py:131-147 | a top-level value that is not an object is refused; otherwise the command list starts with `log_level * none`, holds each object namespace's block in order, skips the rest, and ends with `restart` |
| ProgramTool.CommandsSnoc | roomsensor/src/program.py:135-147 | one more namespace adds its block just before the final `restart` |
| ProgramTool.AllSectionsSnoc | roomsensor/src/program.py:138-144 | the sections' commands are built entry by entry |
| ProgramTool.Consumed | roomsensor/src/program.py:93-114 | the capture loop never reads more than the device offers |
| ProgramTool.SendLineAndCapture | roomsensor/src/program.py:80-115 | the line goes out as one write with CR LF, each chunk with a cursor query is answered once with the position report and stripped of the query, and the text returned is the sanitized capture of the chunks read before the 0.4 s idle or 6 s limit |
| ProgramTool.BusyCaptureReadsOn | roomsensor/src/program.py:109-113 | the six-second limit is checked only after an empty read, so a device that keeps printing keeps the capture going |
| Terminal.Decode | air/src/test/serial_connection.py:196 | decoding keeps one character per byte, with the byte's code |
| Terminal.Utf8 | air/src/test/serial_connection.py:184 | one character's UTF-8 form is one to four bytes: a single byte equal to the code exactly below 0x80, else a lead byte in 0xC2..0xF4 followed by continuation bytes |
| Terminal.Encode | air/src/test/serial_connection.py:184 | `encode("utf-8")` gives at least one byte per character |
| Terminal.EncodeAscii | roomsensor/src/util/roomsensor_util/serial_console.py:206 | ASCII text encodes to one byte per character, each equal to the character's code |
| Terminal.EncodeAppend | roomsensor/src/util/roomsensor_util/serial_console.py:185 | the encoding of a concatenation is the concatenation of the encodings |
| Terminal.SeqLength | air/src/test/serial_connection.py:196 | a lead byte announces at most four bytes, exactly one for a byte below 0x80, and a continuation byte cannot start a character |
| Terminal.DecodeUtf8 | air/src/test/serial_connection.py:196 | strict UTF-8 decoding of valid input yields at most one character per byte |
| Terminal.Utf8Spells | air/src/test/serial_connection.py:184-196 | the lead byte of a character's encoding announces the encoding's length, and its bytes spell the character's code point |
| Terminal.DecodeUtf8Cons | air/src/test/serial_connection.py:184-196 | decoding a character's encoding followed by more bytes gives the character followed by the decoding of the rest, and fails exactly when the rest fails |
| Terminal.DecodeUtf8Encode | air/src/test/serial_connection.py:184-196 | strict UTF-8 decoding of encoded text gives the text back |
| Terminal.EncodeInjective | roomsensor/src/util/roomsensor_util/serial_console.py:206 | two texts with the same encoding are equal, so searching for the encoded text searches for that text alone |
| Terminal.DecodeEncode | air/src/test/serial_connection.py:184-196 | on ASCII bytes, encoding what was decoded gives back the bytes |
| Terminal.RemoveAll | air/src/test/serial_connection.py:119 | removing the query never lengthens the bytes |
| Terminal.RemoveAllAbsent | air/src/test/serial_connection.py:113-119 | bytes without a query are buffered unchanged |
| Terminal.RemoveAllPresent | air/src/test/serial_connection.py:119 | bytes with a query lose at least the query's four bytes |
| Terminal.RemoveAllSplit | air/src/test/serial_connection.py:119 | a query preceded by bytes that cannot start one is removed and those bytes are kept |
| Terminal.RemoveAllCanReform | air/src/test/serial_connection.py:119 | removing one query can join the bytes around it into a new query, which stays in the buffer |
| Terminal.QueryReplies | air/src/test/serial_connection.py:113-118 | a chunk is answered with exactly one cursor position report when it holds the query, and with nothing otherwise |
| Terminal.StripQueries | air/src/test/serial_connection.py:119 | a chunk without the query is kept whole; one with it loses at least four bytes |
| Terminal.ParamRun | air/src/test/serial_connection.py:25 | the parameter run consumes exactly the characters 0x30 to 0x3F that follow |
| Terminal.InterRun | air/src/test/serial_connection.py:25 | the intermediate run consumes exactly the characters 0x20 to 0x2F that follow |
| Terminal.CsiAt | air/src/test/serial_connection.py:25 | a match at the front is a control sequence: ESC, `[`, parameters, intermediates and one final character |
| Terminal.CsiAtComplete | air/src/test/serial_connection.py:25 | every control sequence at the front is matched in full |
| Terminal.StripCsi | air/src/test/serial_connection.py:31 | removing control sequences never lengthens the text |
| Terminal.OscEnd | air/src/test/serial_connection.py:24 | the lazy match of an operating system command ends after its terminator or not at all |
| Terminal.OscAt | air/src/test/serial_connection.py:24 | a match at the front starts with ESC `]` |
| Terminal.Sanitize | air/src/test/serial_connection.py:29-32 | sanitizing never lengthens the text |
| Terminal.SanitizeNoEsc | air/src/test/serial_connection.py:29-32 | text without an escape character is left exactly as it was |
| Terminal.StripCsiSplit | air/src/test/serial_connection.py:31 | text in front of a control sequence is kept and the sequence is dropped |
| Terminal.StripOscSplit | air/src/test/serial_connection.py:30 | text in front of an operating system command is kept and the command is dropped |
| Terminal.SanitizeEscFreeBytes | air/src/test/serial_connection.py:196-197 | bytes without 0x1B decode to text that sanitizing leaves alone |
| SerialConnection.Window | air/src/test/serial_connection.py:120-126 | the buffer keeps exactly the newest `limit` bytes of everything received |
| SerialConnection.WindowExtend | air/src/test/serial_connection.py:120-126 | appending a chunk and then evicting from the front keeps the buffer equal to the newest bytes of the whole stream |
| SerialConnection.Kept | air/src/test/serial_connection.py:110-121 | an empty read adds nothing; a chunk without the cursor query is buffered whole; a chunk is never lengthened |
| SerialConnection.BusyNeverIdle | air/src/test/serial_connection.py:149-159 | a console that brings bytes at every poll is never reported idle |
| SerialConnection.QuietPollIsIdle | air/src/test/serial_connection.py:152-158 | a poll before the deadline that sees no bytes, more than the silence after the last data, ends the wait as idle |
| SerialConnection.LengthSampleMissesData | air/src/test/serial_connection.py:153-155 | once the buffer is full its length never grows, so bytes that keep arriving read as silence |
| SerialConnection.IdleByLengthOnFullBuffer | air/src/test/serial_connection.py:149-159 | with a full one-byte buffer and a byte at each of two polls 0.6 s apart, the length test reports idle while the stream mark does not |
| SerialConnection.MarkSampleSeesData | air/src/test/serial_connection.py:120-126 | the stream mark grows exactly when the reader buffered bytes, however full the buffer is |
| SerialConnection.Connection.constructor | air/src/test/serial_connection.py:78-81 | a new connection has an empty buffer at base 0 and has written nothing |
| SerialConnection.Connection.Mark | air/src/test/serial_connection.py:161-190 | the mark is the number of bytes buffered since the start, and the buffer never exceeds its limit |
| SerialConnection.Connection.OnChunk | air/src/test/serial_connection.py:106-126 | one read appends the kept bytes to the stream, answers a query with one report, keeps the buffer within its limit, and advances the base by exactly the bytes evicted |
| SerialConnection.Connection.Extend | air/src/test/serial_connection.py:120-126 | the kept bytes extend the stream; eviction keeps the limit and moves the base by the bytes dropped |
| SerialConnection.Connection.RawFrom | air/src/test/serial_connection.py:192-195 | no mark gives the whole buffer; a mark before the buffer start is clamped to it; any other mark gives the stream from that mark on |
| SerialConnection.Connection.SnapshotFrom | air/src/test/serial_connection.py:192-197 | the text from a mark is never longer than its bytes, and equals their decoding when they hold no escape |
| SerialConnection.Connection.EchoPoll | air/src/test/serial_connection.py:140-143 | a poll succeeds exactly when the needle is in the sanitized window of what was received before it; otherwise the reader's next chunk is buffered |
| SerialConnection.Connection.WaitEcho | air/src/test/serial_connection.py:137-144 | waiting only adds received bytes and cursor reports; it succeeds at the first poll whose sanitized buffer holds `line` and a newline, with every earlier poll missing it, and a wait that times out has buffered every chunk and missed the echo at every poll |
| SerialConnection.Connection.SendCommand | air/src/test/serial_connection.py:177-190 | the mark is taken before the write, the line and CR LF go out as one write, only cursor reports follow it, and the mark is returned whether or not the echo was seen |
| SerialConnection.Connection.ResetRun | air/src/test/serial_connection.py:161-175 | the mark is taken first; DTR low, RTS high, RTS low are driven in order, up to a control call that raises, whose error is swallowed |
| SerialConnection.Connection.WaitForIdle | air/src/test/serial_connection.py:149-159 | the wait returns idle exactly as the stream-mark reference says, and only adds received bytes and cursor reports |
| SerialConsole.CleanChunk | roomsensor/src/util/roomsensor_util/serial_console.py:19-20 | cleaning a chunk never lengthens it, and a chunk without an escape is kept as decoded |
| SerialConsole.FoundAfterMarkIsNew | roomsensor/src/util/roomsensor_util/serial_console.py:214-223 | a match found at or after a mark lies wholly in the data received after it |
| SerialConsole.NewTextIsFoundAfterMark | roomsensor/src/util/roomsensor_util/serial_console.py:214-223 | every occurrence in the data received after a mark is found by a search from that mark |
| SerialConsole.FoundStaysFound | roomsensor/src/util/roomsensor_util/serial_console.py:218-222 | with a non-negative start, a match stays found however much data arrives later |
| SerialConsole.NegativeStartCanLoseMatch | roomsensor/src/util/roomsensor_util/serial_console.py:220 | a negative start counts from the end of the buffer, so a match seen at one poll can be lost at the next |
| SerialConsole.SplitSequenceSurvives | roomsensor/src/util/roomsensor_util/serial_console.py:284-294 | each chunk is cleaned on its own, so a control sequence split across two reads stays in the clean text |
| SerialConsole.Console.constructor | roomsensor/src/util/roomsensor_util/serial_console.py:70-75 | a new console is closed, with empty raw and clean buffers, having written and toggled nothing |
| SerialConsole.Console.Mark | roomsensor/src/util/roomsensor_util/serial_console.py:196-201 | the mark is the length of the raw buffer |
| SerialConsole.Console.CleanText | roomsensor/src/util/roomsensor_util/serial_console.py:236-238 | the clean text is the concatenation of the clean chunks |
| SerialConsole.Console.CleanMark | roomsensor/src/util/roomsensor_util/serial_console.py:240-241 | the clean mark is the length of the clean text |
| SerialConsole.Console.Open | roomsensor/src/util/roomsensor_util/serial_console.py:86-102 | opening deasserts DTR, then RTS, and leaves the buffers alone |
| SerialConsole.Console.Close | roomsensor/src/util/roomsensor_util/serial_console.py:104-133 | closing an open port clears the break condition and deasserts DTR and RTS before the port is closed; a closed port is left alone |
| SerialConsole.Console.ResetBootloader | roomsensor/src/util/roomsensor_util/serial_console.py:146-156 | DTR is asserted before the RTS pulse and released last; a closed port is refused |
| SerialConsole.Console.ResetNormal | roomsensor/src/util/roomsensor_util/serial_console.py:158-167 | DTR is released first, then RTS is pulsed; a closed port is refused |
| SerialConsole.Console.Write | roomsensor/src/util/roomsensor_util/serial_console.py:170-179 | an open port gets the bytes as one write; a closed port is refused with nothing written |
| SerialConsole.Console.WriteLine | roomsensor/src/util/roomsensor_util/serial_console.py:181-189 | the line and the carriage return go out as two writes; a closed port is refused |
| SerialConsole.Console.OnRead | roomsensor/src/util/roomsensor_util/serial_console.py:280-299 | raw bytes are always appended, a cleaned chunk only when it is not empty, and the clean text grows by exactly the cleaned chunk |
| SerialConsole.Console.WaitFor | roomsensor/src/util/roomsensor_util/serial_console.py:203-212 | the buffers only grow while waiting; success comes at the first check whose raw buffer holds the encoded text, every earlier check having missed it, and a timeout means every arrival was buffered and every check missed |
| SerialConsole.Console.WaitForAfter | roomsensor/src/util/roomsensor_util/serial_console.py:214-223 | success comes at the first check where the encoded text occurs in the raw buffer at or after the start, every earlier check having missed it; a timeout means every arrival was buffered and every check missed |
| SerialConsole.Console.WaitForCleanAfter | roomsensor/src/util/roomsensor_util/serial_console.py:243-250 | success comes at the first check where the text occurs in the clean text at or after the start, every earlier check having missed it; a timeout means every arrival was buffered, its clean text appended, and every check missed |
| MetricsTags.IndexOfKey | roomsensor/src/components/i2c/metrics_tags.cpp:77-78 | the scan finds the first tag holding the key, or reports that no tag holds it |
| MetricsTags.Lookup | roomsensor/src/components/i2c/metrics_tags.cpp:77-78 | a key is reported exactly when some tag holds it |
| MetricsTags.AddSpec | roomsensor/src/components/i2c/metrics_tags.cpp:72-94 | an existing key has its value overwritten in place and nothing else changes; a new key is appended, both strings cut to their buffers, when there is room, and refused with NO_MEM otherwise |
| MetricsTags.RemoveSpec | roomsensor/src/components/i2c/metrics_tags.cpp:96-111 | a missing key gives NOT_FOUND with nothing changed; otherwise the first tag holding it is removed and the later tags move down one place |
| MetricsTags.AddThenLookup | roomsensor/src/components/i2c/metrics_tags.cpp:72-94 | after a successful add of a key that fits its buffer, the key reports the new value, cut to its buffer |
| MetricsTags.AddKeepsOthers | roomsensor/src/components/i2c/metrics_tags.cpp:72-94 | adding one key leaves what every other key reports unchanged |
| MetricsTags.AddKeepsUnique | roomsensor/src/components/i2c/metrics_tags.cpp:76-92 | adding keeps the keys distinct as long as the key fits its buffer |
| MetricsTags.RemoveThenAbsent | roomsensor/src/components/i2c/metrics_tags.cpp:96-111 | with distinct keys a removed key is gone afterwards |
| MetricsTags.RemoveKeepsOthers | roomsensor/src/components/i2c/metrics_tags.cpp:96-111 | removing one key leaves what every other key reports unchanged |
| MetricsTags.AddThenRemove | roomsensor/src/components/i2c/metrics_tags.cpp:72-111 | removing a key just added, new, fitting and with room, restores the tags |
| MetricsTags.LongKeyAppendsAgain | roomsensor/src/components/i2c/metrics_tags.cpp:78-89 | a key longer than its buffer is stored cut, never matches what it stored, and adding it again appends a second tag with the same stored key |
| MetricsTags.UpperHex | roomsensor/src/components/i2c/metrics_tags.cpp:53-54 | each nibble prints as one upper-case hexadecimal digit of its value |
| MetricsTags.MacString | roomsensor/src/components/i2c/metrics_tags.cpp:52-54 | the MAC address prints as two characters per byte |
| MetricsTags.MacStringAt | roomsensor/src/components/i2c/metrics_tags.cpp:52-54 | each byte of the address prints as its two digits, high nibble first, and reads back from them |
| MetricsTags.SensorName | roomsensor/src/components/i2c/metrics_tags.cpp:63 | the `sensor` value is the room, a dash and the id |
| MetricsTags.SeedTags | roomsensor/src/components/i2c/metrics_tags.cpp:22-67 | five device tags are seeded, each string fitting its buffer |
| MetricsTags.Seed | roomsensor/src/components/i2c/metrics_tags.cpp:24-27 | a seeded key and value are cut to fit their buffers with the terminator |
| MetricsTags.TagCollection.Contents | roomsensor/src/components/i2c/metrics_tags.cpp:16 | the tags in use are the collection's count of entries |
| MetricsTags.TagCollection.constructor | roomsensor/src/components/i2c/metrics_tags.cpp:11-70 | the new collection holds as many of the five device tags, in order, as its capacity allows |
| MetricsTags.CreateTagCollection | roomsensor/src/components/i2c/metrics_tags.cpp:11-70 | NULL exactly when the allocation fails; otherwise a fresh collection seeded with the device tags |
| MetricsTags.AddTag | roomsensor/src/components/i2c/metrics_tags.cpp:72-94 | a NULL collection, key or value gives INVALID_ARG with nothing changed; otherwise the result and new tags are those of the add specification |
| MetricsTags.RemoveTag | roomsensor/src/components/i2c/metrics_tags.cpp:96-111 | a NULL collection or key gives INVALID_ARG with nothing changed; otherwise the result and new tags are those of the remove specification |
| MetricsTags.ShiftDown | roomsensor/src/components/i2c/metrics_tags.cpp:103-106 | the tag at the position is removed and the later tags move down |
| Sen55.CalculateCrc | roomsensor/src/components/i2c/sen55_sensor.cpp:356-372 | the byte and bit loops compute the CRC-8 with polynomial 0x31, initial value 0xFF, most significant bit first and no final XOR |
| Sen55.CrcOfBeef | roomsensor/src/components/i2c/sen55_sensor.cpp:356-372 | the CRC of the word 0xBEEF is 0x92, the check value of the sensor's data sheet |
| Sen55.CrcByteInjective | roomsensor/src/components/i2c/sen55_sensor.cpp:360-369 | with the register fixed, different bytes give different registers, and with the byte fixed, different registers stay different |
| Sen55.CrcOfCheckedIsZero | roomsensor/src/components/i2c/sen55_sensor.cpp:356-372 | running the CRC over data followed by its own CRC leaves zero |
| Sen55.WordErrorDetected | roomsensor/src/components/i2c/sen55_sensor.cpp:259-266 | any change to exactly one of the two bytes of a word changes its CRC |
| Sen55.WordBytes | roomsensor/src/components/i2c/sen55_sensor.cpp:184-187 | a word goes out as two bytes, most significant first, and reads back from them |
| Sen55.FrameWith | roomsensor/src/components/i2c/sen55_sensor.cpp:209-218 | framing adds one check byte per pair of argument bytes |
| Sen55.ArgsFrame | roomsensor/src/components/i2c/sen55_sensor.cpp:209-218 | the argument frame is three bytes for each pair |
| Sen55.CommandFrame | roomsensor/src/components/i2c/sen55_sensor.cpp:196-221 | the whole write is the two command bytes and the framed arguments, `2 + n + n / 2` bytes |
| Sen55.ArgsFrameSnoc | roomsensor/src/components/i2c/sen55_sensor.cpp:211-218 | one more pair of arguments extends the frame by that pair and its CRC |
| Sen55.ArgsFrameChecks | roomsensor/src/components/i2c/sen55_sensor.cpp:209-218 | every triple of a framed argument list carries its original pair and passes the check the sensor applies |
| Sen55.SingleByteCorruptionDetected | roomsensor/src/components/i2c/sen55_sensor.cpp:258-266 | a frame whose words all pass their checks fails them once any single byte is changed |
| Sen55.OddArgsOverrun | roomsensor/src/components/i2c/sen55_sensor.cpp:196-218 | as written, an odd argument count makes the loop write two bytes past the allocation, and an even count fills it exactly |
| Sen55.SendCommand | roomsensor/src/components/i2c/sen55_sensor.cpp:183-194 | the command goes out as its two bytes, most significant first, and the driver's result is returned |
| Sen55.SendCommandWithArgs | roomsensor/src/components/i2c/sen55_sensor.cpp:196-231 | an odd argument count is refused with INVALID_ARG and nothing sent; a failed allocation gives NO_MEM; otherwise the command frame is written and the driver's result returned |
| Sen55.FrameArgs | roomsensor/src/components/i2c/sen55_sensor.cpp:209-218 | the argument loop builds exactly the argument frame |
| Sen55.Update | roomsensor/src/components/i2c/sen55_sensor.cpp:287-336 | a raw value of 0x7FFF keeps the previous reading, and any other value replaces it |
| Sen55.Measured | roomsensor/src/components/i2c/sen55_sensor.cpp:268-336 | after a good frame the particulate readings are the big-endian words 0 to 3, and temperature, humidity, VOC and NOx are updated from words 4 to 7 |
| Sen55.Outcome | roomsensor/src/components/i2c/sen55_sensor.cpp:233-280 | the read succeeds exactly when the command and the receive succeed, every CRC matches and no particulate word is 0xFFFF |
| Sen55.FramedReadingsAccepted | roomsensor/src/components/i2c/sen55_sensor.cpp:258-284 | a sensor that answers with eight framed words is read back exactly |
| Sen55.CheckFrame | roomsensor/src/components/i2c/sen55_sensor.cpp:258-266 | the CRC loop accepts exactly the frames whose eight words pass their checks |
| Sen55.Sensor.constructor | roomsensor/src/components/i2c/sen55_sensor.cpp:9-23 | the sensor starts uninitialised with zero readings, 25 °C and 50 %RH, and no start-up readings |
| Sen55.Sensor.Init | roomsensor/src/components/i2c/sen55_sensor.cpp:54-129 | an initialised sensor stays so and reports success; otherwise it becomes initialised exactly when the bus, the device, the reset, the start and the tags all succeed |
| Sen55.Sensor.ReadMeasurement | roomsensor/src/components/i2c/sen55_sensor.cpp:233-354 | the result is the read's outcome, and the readings change, to the measured ones, only on success |
| Sen55.Sensor.Poll | roomsensor/src/components/i2c/sen55_sensor.cpp:131-151 | before initialisation nothing changes; after a good read the readings are updated and the start-up counter advances up to 5; after a failed read nothing changes |

## Left out

- Foreign I/O is abstracted. Pyserial, the ESP-IDF I2C/RMT/UART/GPIO drivers, NVS, HTTP, MQTT, cJSON and SNTP calls become parameters, abstract bus results or values handed back to the caller.
- Concurrency is not modelled. This covers the reader threads and locks of the host tools, FreeRTOS tasks and queues, timers and ISRs. Buffers are updated by sequential calls with the time as an input, and `xPortInIsrContext` is treated like a task context.
- The wait on the MQTT connection is left out. This covers the metrics reporting task, the netlog task and `create_json_message`.
- `vsnprintf` failure in the netlog hook is left out: a negative length is C library behaviour that is not visible here.
- `ESP_LOG` output and the other log lines are not modelled.
- Bme280.DecodeH, Bme280.DecodeCalib, Bme280.Sensor.ReadCalibrationData, Bme280.TwelveBitRoundTrip, Bme280.DecodeHRoundTrip and Bme280.CalibRoundTrip: these build `dig_H4`/`dig_H5` with the corrected signed `DigH4`/`DigH5`, not the code's unsigned `DigH4AsWritten`/`DigH5AsWritten`. The two agree while registers 0xE4 and 0xE6 are below 0x80. For larger values the driver model's humidity differs from the code's; 0xE4 = 0x80 with 0xE5 = 0 gives 2048 in the code and -2048 here. The finding below records it.
- BME280: the floating-point conversions and Fahrenheit are left out. The int32/int64 intermediate overflow of the compensation formulas is not modelled either: products are unbounded integers.
- Lis2dh: the float g conversion in `get_accel` is left out; the result is the raw count and the sensitivity in mg per digit.
- Lis2dh: `determine_orientation` and `is_significant_movement` are left out because they are floating-point.
- Lis2dh: `check_interrupt_config`, `get_int1_source`, `configure_normal_mode`, `configure_sleep_mode` and `read_register` are driver plumbing that lies outside the named operations.
- SEN55: the float scaling of the measured values is left out: values are the raw words.
- SEN55: the per-metric `report_metric` calls, the not-ready counter, the destructor and the logging are left out.
- ConfigManager.ConfigurationManager.HandleUpdate: does not model the NVS persistence of the updated module (roomsensor/src/components/configuration/ConfigurationManager.cpp:290-364), because NVS is foreign storage.
- `handle_config_reset` and `publish_full_configuration` are left out: both are NVS erasure and MQTT publishing. The router only selects the reset.
- The registry holds the wifi, tags and device modules, four LED modules, four A2D modules, the motion module and eight IO modules. `apply_update` of the tags, device and motion modules is not part of this model. Its result is a parameter of the update.
- The `i2c` module is modelled on its own (ConfigI2c), because the manager does not register it.
- `atoi` and `sscanf` `%d` are modelled on unbounded integers, so their overflow on very long digit strings is left out.
- The `to_json` outputs of the LED, IO and I2C modules are left out because they only serialise through cJSON. The A2D inclusion rule is modelled.
- IOConfig `set_switch_state` and `set_contact_state` are declared in the header but not defined in the source; the keypad model treats them as plain setters.
- ConfigIo.ParsePinMode: only SWITCH and SENSOR are accepted in a `pinNconfig` update, as the source does. The other pin modes are modelled only as far as their names.
- I2cExt.Uint32Of: computes the intended little-endian value. The source's `rx[3] << 24` (leds/src/espamp/main/i2c_master_ext.c:211) shifts a byte promoted to a signed `int`, which is undefined behaviour in C when `rx[3]` is 0x80 or more; the model does not capture that.
- The I2C master helpers' device-descriptor cache and `i2c_master_bus_detect_devices`/`i2c_master_init` are left out because they are bus plumbing.
- The lock keypad's NULL-pointer checks and logging are left out.
- Object allocation is not modelled. Fixed C arrays such as `pins_` and `channels_` are `seq` fields that the methods reassign.
- Ota.CheckUpdateResult: the JSON parser is not modelled; the manifest's parse is a parameter. The `(time_t)` conversion of the double build time is not modelled either: the timestamp is an integer.
- OTA: the time sanity checks, the downloads, the NVS save and `mark_app_valid` are left out because they are network and flash I/O. The decision and status choices are modelled.
- LedTransition: the float `progress` is left out: compositions are stated in terms of the integer count or radius the float produces. `create_transition` is left out too. The comment above the duration formula gives a different range from the one the code computes; the model follows the code.
- LedStripRmt: `init`, `destroy`, the GPIO power pin, `set_power_enabled`, `refreshOk` and the `led_strip_*` driver calls are left out. The flush is modelled up to the bytes handed to the driver.
- LedPower.FrameBytes: the `size_t` wrap of `rows*cols*4` is not modelled, and neither is the wrap of other dimension products: dimensions are unbounded naturals.
- ConsoleBuffer.Ring.Append: stores the corrected `StoredLen`, which also caps the length so that header and payload fit an empty ring with one byte free. The code (roomsensor/src/components/serial_console/console_buffer.c:80) caps only at 65535, so in the 64 KiB ring a 65525-byte payload leaves `head == tail` and the ring reads as empty. `ConsoleBuffer.OversizeRecordAsWritten` exhibits the code's behaviour; the finding below records it.
- LedLife: `render_current`, `set_brightness_percent`, `set_solid_color` and `set_start_string` only draw or store, and are left out. Only the state after `reset` is modelled, not the order of its field writes. The header declares cycle-detection hash-ring fields that the code never uses; they are left out.
- LedEncoders: the drivers' `transmit_frame` and `is_busy` are left out.
- LedSolid: `SolidPattern::reset` is a no-op and has no model. The `on_count >= total` branch of `update` is proved unreachable, because `total*b/100 < total` for `b < 100`.
- ButtonsPuzzle: the LED control that shows the colours and the nine light behaviours themselves are left out; the selected behaviour is a value.
- Lis2dh: `onMovementDetected` and `onOrientationChanged` are declared in the header but not defined in the source, and are left out.
- Host tools: port discovery (`pick_port`, `find_default_port`) and `sleep`-based timing are left out: the clock is a sequence of polls. Also left out are the dump helpers, `assert_contains`, `assert_matches`, `wait_match` and the command-line `main` of `program.py`.
- Terminal.Decode: bytes are decoded one byte to one code point, so the text the model searches agrees with Python's only on ASCII bytes. `Terminal.DecodeUtf8` models strict UTF-8 decoding and is proved to undo `Encode`, but the search functions do not use it, and Python's replacement characters for invalid sequences are left out.
- Terminal.DecodeEncode: holds for ASCII bytes only, because `Decode` maps a byte to one character while `Encode` is UTF-8.

## Findings

| source | as written | input that shows it | evidently intended | confidence | as-written member | corrected member |
|---|---|---|---|---|---|---|
| air/src/test/serial_connection.py:149-159 | `wait_for_idle` measures activity by `len(self._buf)`. The reader trims the buffer to its limit, so the length stops growing once the buffer is full | a buffer at its byte limit while new bytes keep arriving every 600 ms; it reports idle after one second | idle means no new bytes were buffered for the silence period; measure with the stream mark (base offset plus length) | not executed | SerialConnection.IdleByLengthOnFullBuffer | SerialConnection.Connection.WaitForIdle |
| roomsensor/src/components/serial_console/console_buffer.c:80-116 | the stored record length is capped only at 65535. A record whose header and payload fill the whole ring ends its write at the tail | an empty 4096-byte ring given a 4085-byte record: afterwards `head == tail`, so the ring reads as empty. A payload of 8182 bytes writes past the end of the array | also cap the length so that header and payload fit an empty ring with one byte free | not executed | ConsoleBuffer.OversizeRecordAsWritten | ConsoleBuffer.StoredLen |
| roomsensor/src/components/i2c/sen55_sensor.cpp:196-218 | the buffer holds `2 + n + n/2` bytes, but the loop writes three bytes for each started pair of arguments | `args_len == 1`: five bytes are written into a three-byte allocation, and one byte is read past the arguments | refuse odd argument counts (or size the buffer by whole pairs) | not executed | Sen55.OddArgsOverrun | Sen55.SendCommandWithArgs |
| roomsensor/src/components/i2c/bme280_sensor.cpp:216-217 | `dig_H4`/`dig_H5` take registers 0xE4/0xE6 as unsigned bytes, so the 12-bit value is always non-negative | E4 = 0xFF and E5 = 0xFF give `dig_H4 = 4095`, where the datasheet's signed layout gives -1 | sign-extend the top byte, as the datasheet lays out the signed 12-bit coefficient | not executed | Bme280.DigH4SignLost | Bme280.DigH4 |
