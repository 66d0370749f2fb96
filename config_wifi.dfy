/** The `wifi` configuration module: SSID, password, MQTT broker, channel
  * and the log level, each settable by key from the MQTT configuration
  * topic. */
module ConfigWifi {
  import opened CTypes
  import opened CStr
  import opened ConfigText

  datatype WifiSettings = WifiSettings(
    ssid: CString, password: CString, broker: CString, channel: CString,
    ssidSet: bool, passwordSet: bool, brokerSet: bool, channelSet: bool,
    logLevel: int)

  /** A freshly constructed module: nothing set, log level WARN (2). */
  const Defaults := WifiSettings("", "", "", "", false, false, false, false, 2)

  /** The keys the module answers to. */
  const Keys: seq<string> := ["ssid", "password", "mqtt_broker", "channel", "loglevel"]

  /** A WPA2 SSID is 1 to 32 bytes. */
  predicate ValidSsid(v: string) {
    1 <= |v| <= 32
  }

  /** A pre-shared key given as 64 hexadecimal digits. */
  predicate Hex64(v: string) {
    |v| == 64 && forall i :: 0 <= i < |v| ==> IsHexDigit(v[i])
  }

  /** A passphrase of 8 to 63 characters, or a 64-digit hex key. */
  predicate ValidPassword(v: string) {
    8 <= |v| <= 63 || Hex64(v)
  }

  /** What a stored configuration always satisfies: an SSID and password
    * that are valid or cleared, and a log level in `ESP_LOG_NONE` ..
    * `ESP_LOG_VERBOSE`. */
  predicate Valid(s: WifiSettings) {
    |s.ssid| <= 32 && (s.password == "" || ValidPassword(s.password)) && 0 <= s.logLevel <= 5
  }

  /** The log level a `loglevel` value selects. */
  function LogLevel(value: Option<CString>): (l: int)
    ensures 0 <= l <= 5
    ensures value.None? ==> l == 2
    ensures value.Some? && 0 <= Atoi(value.value) <= 5 ==> l == Atoi(value.value)
    ensures value.Some? && Atoi(value.value) < 0 ==> l == 0
    ensures value.Some? && Atoi(value.value) > 5 ==> l == 5
  {
    Clamp(IntOr(value, 2), 0, 5)
  }

  /** `WifiConfig::apply_update` on the module's configuration `s`. */
  function Apply(s: WifiSettings, key: Option<CString>, value: Option<CString>): (r: Applied<WifiSettings>)
    ensures key.None? ==> r.err == INVALID_ARG
    ensures r.err == OK || r.err == INVALID_ARG || r.err == NOT_FOUND
    ensures r.err != OK ==> r.state == s
    ensures r.err == NOT_FOUND <==> key.Some? && key.value !in Keys
    ensures IsKey(key, "ssid") ==> (r.err == OK <==> value.None? || ValidSsid(value.value))
    ensures IsKey(key, "password") ==> (r.err == OK <==> value.None? || ValidPassword(value.value))
    ensures IsKey(key, "ssid") && r.err == OK ==> r.state == s.(ssid := TextOr(value), ssidSet := true)
    ensures IsKey(key, "password") && r.err == OK ==>
      r.state == s.(password := TextOr(value), passwordSet := true)
    ensures IsKey(key, "mqtt_broker") ==>
      r == Applied(OK, s.(broker := TextOr(value), brokerSet := value.Some?))
    ensures IsKey(key, "channel") ==>
      r == Applied(OK, s.(channel := TextOr(value), channelSet := value.Some?))
    ensures IsKey(key, "loglevel") ==> r == Applied(OK, s.(logLevel := LogLevel(value)))
    ensures Valid(s) ==> Valid(r.state)
  {
    if key.None? then Applied(INVALID_ARG, s)
    else if key.value == "ssid" then
      if value.None? then Applied(OK, s.(ssid := "", ssidSet := true))
      else if |value.value| == 0 || |value.value| > 32 then Applied(INVALID_ARG, s)
      else Applied(OK, s.(ssid := value.value, ssidSet := true))
    else if key.value == "password" then
      if value.None? then Applied(OK, s.(password := "", passwordSet := true))
      else
        var v := value.value;
        var hex64 := |v| == 64 && forall i :: 0 <= i < |v| ==> IsHexDigit(v[i]);
        if !hex64 && (|v| < 8 || |v| > 63) then Applied(INVALID_ARG, s)
        else Applied(OK, s.(password := v, passwordSet := true))
    else if key.value == "mqtt_broker" then
      Applied(OK, s.(broker := TextOr(value), brokerSet := value.Some?))
    else if key.value == "channel" then
      Applied(OK, s.(channel := TextOr(value), channelSet := value.Some?))
    else if key.value == "loglevel" then
      Applied(OK, s.(logLevel := LogLevel(value)))
    else
      Applied(NOT_FOUND, s)
  }

  /** The settings a sequence of updates leaves, from `s`. */
  function ApplyAll(s: WifiSettings, updates: seq<(Option<CString>, Option<CString>)>): (t: WifiSettings)
    ensures Valid(s) ==> Valid(t)
    decreases |updates|
  {
    if updates == [] then s
    else ApplyAll(Apply(s, updates[0].0, updates[0].1).state, updates[1..])
  }

  /** The hex-digit scan `apply_update` makes over a 64-character password. */
  method IsHex64(v: CString) returns (isHex: bool)
    ensures isHex <==> Hex64(v)
  {
    isHex := false;
    if |v| == 64 {
      isHex := true;
      var p := 0;
      while p < |v|
        invariant 0 <= p <= |v|
        invariant isHex <==> forall i :: 0 <= i < p ==> IsHexDigit(v[i])
        invariant !isHex ==> !Hex64(v)
        decreases |v| - p, isHex
      {
        if !IsHexDigit(v[p]) {
          isHex := false;
          break;
        }
        p := p + 1;
      }
    }
  }

  /** A `WifiConfig` object: the fields `apply_update` assigns and the
    * generation counter every configuration module carries. */
  class WifiConfig {
    var ssid: CString
    var password: CString
    var broker: CString
    var channel: CString
    var ssidSet: bool
    var passwordSet: bool
    var brokerSet: bool
    var channelSet: bool
    var logLevel: int
    var generation: u32

    function Current(): WifiSettings
      reads this`ssid, this`password, this`broker, this`channel
      reads this`ssidSet, this`passwordSet, this`brokerSet, this`channelSet, this`logLevel
    {
      WifiSettings(ssid, password, broker, channel, ssidSet, passwordSet, brokerSet, channelSet, logLevel)
    }

    constructor ()
      ensures Current() == Defaults && generation == 0
    {
      ssid, password, broker, channel := "", "", "", "";
      ssidSet, passwordSet, brokerSet, channelSet := false, false, false, false;
      logLevel := 2;
      generation := 0;
    }

    method ApplyUpdate(key: Option<CString>, value: Option<CString>) returns (err: EspErr)
      modifies this`ssid, this`password, this`broker, this`channel
      modifies this`ssidSet, this`passwordSet, this`brokerSet, this`channelSet, this`logLevel
      ensures Applied(err, Current()) == Apply(old(Current()), key, value)
    {
      if key.None? {
        return INVALID_ARG;
      }
      var k := key.value;
      if k == "ssid" {
        if value.None? {
          ssid, ssidSet := "", true;
          return OK;
        }
        var len := |value.value|;
        if len == 0 || len > 32 {
          return INVALID_ARG;
        }
        ssid, ssidSet := value.value, true;
        return OK;
      }
      if k == "password" {
        if value.None? {
          password, passwordSet := "", true;
          return OK;
        }
        var len := |value.value|;
        var hex64 := IsHex64(value.value);
        if !hex64 && (len < 8 || len > 63) {
          return INVALID_ARG;
        }
        password, passwordSet := value.value, true;
        return OK;
      }
      if k == "mqtt_broker" {
        broker, brokerSet := TextOr(value), value.Some?;
        return OK;
      }
      if k == "channel" {
        channel, channelSet := TextOr(value), value.Some?;
        return OK;
      }
      if k == "loglevel" {
        var lvl := if value.Some? then Atoi(value.value) else 2;
        if lvl < 0 { lvl := 0; }
        if lvl > 5 { lvl := 5; }
        logLevel := lvl;
        return OK;
      }
      return NOT_FOUND;
    }

    /** `mark_updated`: the generation counter is a `uint32_t`. */
    method MarkUpdated()
      modifies this`generation
      ensures generation == WrapU32(old(generation) + 1)
    {
      generation := WrapU32(generation + 1);
    }
  }
}
