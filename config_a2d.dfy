/** The `a2d1` .. `a2d4` configuration modules: four analogue channels of an
  * ADS1115 converter, each with an enable flag, a gain, a sensor type and
  * a name, addressed by keys of the form `ch<N>.<field>`. */
module ConfigA2d {
  import opened CTypes
  import opened CStr
  import opened ConfigText

  /** `A2DChannelConfig`: each value with the flag saying it was set. */
  datatype Channel = Channel(
    enabled: bool, enabledSet: bool,
    gain: CString, gainSet: bool,
    sensor: CString, sensorSet: bool,
    name: CString, nameSet: bool)

  /** A channel nobody configured: enabled, nothing set. */
  const DefaultChannel := Channel(true, false, "", false, "", false, "", false)

  const ChannelCount := 4

  /** `any_set`. */
  predicate AnySet(c: Channel) {
    c.enabledSet || c.gainSet || c.sensorSet || c.nameSet
  }

  /** The ADS1115 full-scale ranges accepted as `gain`. */
  const Gains: seq<string> := [
    "FSR_6V144", "FSR_4V096", "FSR_2V048", "FSR_1V024", "FSR_0V512", "FSR_0V256", "FULL"]

  /** The sensor types accepted as `sensor`. */
  const Sensors: seq<string> := ["BTS7002", "RSUV"]

  /** `is_valid_gain`: NULL is not a gain. */
  predicate IsValidGain(g: Option<CString>) {
    g.Some? && g.value in Gains
  }

  /** `is_valid_sensor`: NULL is not a sensor. */
  predicate IsValidSensor(v: Option<CString>) {
    v.Some? && v.value in Sensors
  }

  /** `sscanf(key, "ch%d.%15s", &ch, field) == 2` for a key known to start
    * with `ch`: the channel number and the field name, or `None` when
    * fewer than two conversions succeed. */
  function ScanChannelKey(key: string): (r: Option<(int, string)>)
    requires HasPrefix(key, "ch")
    ensures r.Some? ==> 1 <= |r.value.1| <= 15
    ensures r.Some? ==> forall i :: 0 <= i < |r.value.1| ==> !IsSpace(r.value.1[i])
  {
    var num := ScanInt(key[2..]);
    if num.None? then None
    else
      var field := ScanField(key[2 + num.value.1..]);
      if field.None? then None else Some((num.value.0, field.value))
  }

  /** `.%15s` of the channel-key `sscanf`. */
  function ScanField(rest: string): (r: Option<string>)
    ensures r.Some? ==> 1 <= |r.value| <= 15
    ensures r.Some? ==> forall i :: 0 <= i < |r.value| ==> !IsSpace(r.value[i])
  {
    if rest == [] || rest[0] != '.' then None else ScanWord(rest[1..], 15)
  }

  /** The key the descriptors spell for channel `n` and field `f`: the
    * `snprintf(.., "ch%d.<f>", n)` form. */
  function ChannelKey(n: nat, f: string): (k: string)
    ensures HasPrefix(k, "ch")
  {
    "ch" + NatString(n) + "." + f
  }

  /** Descriptor keys scan back to their channel and field. */
  lemma {:induction false} ScanChannelKeyRoundTrip(n: nat, f: string)
    requires 1 <= |f| <= 15
    requires forall i :: 0 <= i < |f| ==> !IsSpace(f[i])
    ensures ScanChannelKey(ChannelKey(n, f)) == Some((n, f))
  {
    var d := NatString(n);
    var rest := "." + f;
    var key := ChannelKey(n, f);
    DropAppend("ch", d + rest);
    DropAppend("ch" + d, rest);
    assert key == "ch" + (d + rest) == ("ch" + d) + rest;
    ScanIntNatString(n, rest);
    DropAppend(".", f);
    ScanWordWhole(f, 15);
    ScanChannelKeyOf(key, n, |d|, f);
  }

  lemma ScanChannelKeyOf(key: string, n: int, k: nat, f: string)
    requires HasPrefix(key, "ch") && 2 + k <= |key|
    requires ScanInt(key[2..]) == Some((n, k))
    requires ScanField(key[2 + k..]) == Some(f)
    ensures ScanChannelKey(key) == Some((n, f))
  {
  }

  lemma DropAppend(a: string, b: string)
    ensures (a + b)[|a|..] == b
  {
  }

  /** The part of `apply_update` that acts on the addressed channel `c`. */
  function ApplyField(c: Channel, field: string, value: Option<CString>): (r: Applied<Channel>)
    ensures r.err == OK || r.err == INVALID_ARG || r.err == NOT_FOUND
    ensures r.err != OK ==> r.state == c
    ensures r.err == NOT_FOUND <==> field !in ["enabled", "gain", "sensor", "name"]
    ensures field == "enabled" ==>
      (r.err == OK <==> value.None? || value.value == "1" || value.value == "0"
                        || CaseEq(value.value, "true") || CaseEq(value.value, "false"))
    ensures field == "enabled" && r.err == OK ==>
      r.state == c.(enabled := value.Some? && (CaseEq(value.value, "true") || value.value == "1"),
                    enabledSet := true)
    ensures field == "gain" ==> (r.err == OK <==> IsValidGain(value))
    ensures field == "gain" && r.err == OK ==> r.state == c.(gain := value.value, gainSet := true)
    ensures field == "sensor" ==> (r.err == OK <==> TextOr(value) == "" || IsValidSensor(value))
    ensures field == "sensor" && r.err == OK ==>
      r.state == c.(sensor := TextOr(value), sensorSet := TextOr(value) != "")
    ensures field == "name" ==>
      r == Applied(OK, c.(name := TextOr(value), nameSet := TextOr(value) != ""))
  {
    if field == "enabled" then
      if value.None? then Applied(OK, c.(enabled := false, enabledSet := true))
      else if CaseEq(value.value, "true") || value.value == "1" then
        Applied(OK, c.(enabled := true, enabledSet := true))
      else if CaseEq(value.value, "false") || value.value == "0" then
        Applied(OK, c.(enabled := false, enabledSet := true))
      else Applied(INVALID_ARG, c)
    else if field == "gain" then
      if value.Some? && IsValidGain(value) then Applied(OK, c.(gain := value.value, gainSet := true))
      else Applied(INVALID_ARG, c)
    else if field == "sensor" then
      if value.None? || value.value == "" then Applied(OK, c.(sensor := "", sensorSet := false))
      else if IsValidSensor(value) then Applied(OK, c.(sensor := value.value, sensorSet := true))
      else Applied(INVALID_ARG, c)
    else if field == "name" then
      if value.None? || value.value == "" then Applied(OK, c.(name := "", nameSet := false))
      else Applied(OK, c.(name := value.value, nameSet := true))
    else Applied(NOT_FOUND, c)
  }

  /** The channel and field a key addresses, when it is well formed. */
  function Target(key: CString): (t: Option<(int, string)>)
  {
    if HasPrefix(key, "ch") then ScanChannelKey(key) else None
  }

  /** `A2DConfig::apply_update` on the four channels `chs`. */
  function Apply(chs: seq<Channel>, key: Option<CString>, value: Option<CString>): (r: Applied<seq<Channel>>)
    requires |chs| == ChannelCount
    ensures |r.state| == ChannelCount
    ensures key.None? ==> r.err == INVALID_ARG
    ensures key.Some? && !HasPrefix(key.value, "ch") ==> r.err == NOT_FOUND
    ensures key.Some? && HasPrefix(key.value, "ch") && (Target(key.value).None? || !(1 <= Target(key.value).value.0 <= 4))
      ==> r.err == INVALID_ARG
    ensures r.err != OK ==> r.state == chs
    ensures r.err == OK ==> key.Some? && Target(key.value).Some? && 1 <= Target(key.value).value.0 <= 4
    ensures r.err == OK ==>
      var (ch, field) := Target(key.value).value;
      r.state == chs[ch - 1 := ApplyField(chs[ch - 1], field, value).state]
  {
    if key.None? then Applied(INVALID_ARG, chs)
    else if !HasPrefix(key.value, "ch") then Applied(NOT_FOUND, chs)
    else
      var t := Target(key.value);
      if t.None? || t.value.0 < 1 || t.value.0 > 4 then Applied(INVALID_ARG, chs)
      else
        var (ch, field) := t.value;
        var a := ApplyField(chs[ch - 1], field, value);
        if a.err == OK then Applied(OK, chs[ch - 1 := a.state]) else Applied(a.err, chs)
  }

  /** An update leaves every channel but the addressed one as it was. */
  lemma OnlyAddressedChannel(chs: seq<Channel>, key: CString, value: Option<CString>, j: nat)
    requires |chs| == ChannelCount && j < ChannelCount
    requires Target(key).None? || Target(key).value.0 != j + 1
    ensures Apply(chs, Some(key), value).state[j] == chs[j]
  {
  }

  /** A descriptor key is a C string when its field name is. */
  lemma {:induction false} ChannelKeyText(n: nat, f: CString)
    ensures '\0' !in ChannelKey(n, f)
  {
    var d := NatString(n);
    assert AllDigits(d);
    assert '\0' !in d by {
      forall i | 0 <= i < |d| ensures d[i] != '\0' { assert IsDigit(d[i]); }
    }
  }

  /** A descriptor key reaches the channel and field it names. */
  lemma {:induction false} ApplyChannelKey(chs: seq<Channel>, n: nat, f: CString, value: Option<CString>)
    requires |chs| == ChannelCount && 1 <= n <= 4
    requires f in ["enabled", "gain", "sensor", "name"]
    ensures '\0' !in ChannelKey(n, f)
    ensures var a := ApplyField(chs[n - 1], f, value);
      Apply(chs, Some(ChannelKey(n, f)), value)
        == if a.err == OK then Applied(OK, chs[n - 1 := a.state]) else Applied(a.err, chs)
  {
    ChannelKeyText(n, f);
    assert 1 <= |f| <= 15 && forall i :: 0 <= i < |f| ==> !IsSpace(f[i]);
    ScanChannelKeyRoundTrip(n, f);
    ApplyTarget(chs, ChannelKey(n, f), n, f, value);
  }

  lemma ApplyTarget(chs: seq<Channel>, key: CString, n: int, f: string, value: Option<CString>)
    requires |chs| == ChannelCount && 1 <= n <= 4
    requires HasPrefix(key, "ch") && ScanChannelKey(key) == Some((n, f))
    ensures var a := ApplyField(chs[n - 1], f, value);
      Apply(chs, Some(key), value)
        == if a.err == OK then Applied(OK, chs[n - 1 := a.state]) else Applied(a.err, chs)
  {
  }

  /** `channel_config`: a channel number outside 1..4 reads the defaults. */
  function ChannelConfig(chs: seq<Channel>, channel: int): (c: Channel)
    requires |chs| == ChannelCount
    ensures !(1 <= channel <= 4) ==> c == DefaultChannel
    ensures 1 <= channel <= 4 ==> c == chs[channel - 1]
  {
    if channel < 1 || channel > 4 then DefaultChannel else chs[channel - 1]
  }

  /** What `to_json` writes for one channel: its number and the values
    * that were set. */
  datatype ChannelJson = ChannelJson(
    channel: nat, enabled: Option<bool>, gain: Option<CString>, sensor: Option<CString>, name: Option<CString>)

  function ChannelView(n: nat, c: Channel): (j: ChannelJson)
    ensures j.channel == n
    ensures j.enabled.Some? <==> c.enabledSet
    ensures j.gain.Some? <==> c.gainSet
    ensures j.sensor.Some? <==> c.sensorSet
    ensures j.name.Some? <==> c.nameSet
  {
    ChannelJson(n,
      if c.enabledSet then Some(c.enabled) else None,
      if c.gainSet then Some(c.gain) else None,
      if c.sensorSet then Some(c.sensor) else None,
      if c.nameSet then Some(c.name) else None)
  }

  /** The channel objects `to_json` writes for `chs[i..]`, numbered from
    * `i + 1`. */
  function ChannelViews(chs: seq<Channel>, i: nat): (js: seq<ChannelJson>)
    requires i <= |chs|
    ensures |js| <= |chs| - i
    decreases |chs| - i
  {
    if i == |chs| then []
    else
      var rest := ChannelViews(chs, i + 1);
      if AnySet(chs[i]) then [ChannelView(i + 1, chs[i])] + rest else rest
  }

  /** Every object written is the view of a channel, numbered from 1, that
    * has something set. */
  lemma {:induction false} ChannelViewsSound(chs: seq<Channel>, i: nat, e: ChannelJson)
    requires i <= |chs| && e in ChannelViews(chs, i)
    ensures i + 1 <= e.channel <= |chs|
    ensures AnySet(chs[e.channel - 1]) && e == ChannelView(e.channel, chs[e.channel - 1])
    decreases |chs| - i
  {
    if AnySet(chs[i]) && e == ChannelView(i + 1, chs[i]) {
    } else {
      ChannelViewsSound(chs, i + 1, e);
    }
  }

  /** Every channel with something set is written. */
  lemma {:induction false} ChannelViewsComplete(chs: seq<Channel>, i: nat, k: nat)
    requires i <= k < |chs| && AnySet(chs[k])
    ensures ChannelView(k + 1, chs[k]) in ChannelViews(chs, i)
    decreases k - i
  {
    if i < k {
      ChannelViewsComplete(chs, i + 1, k);
    }
  }

  /** The objects come in channel order. */
  lemma {:induction false} ChannelViewsOrdered(chs: seq<Channel>, i: nat, a: nat, b: nat)
    requires i <= |chs| && a < b < |ChannelViews(chs, i)|
    ensures ChannelViews(chs, i)[a].channel < ChannelViews(chs, i)[b].channel
    decreases |chs| - i
  {
    var js := ChannelViews(chs, i);
    var rest := ChannelViews(chs, i + 1);
    if AnySet(chs[i]) {
      if a == 0 {
        assert js[b] == rest[b - 1] && js[b] in rest;
        ChannelViewsSound(chs, i + 1, js[b]);
      } else {
        ChannelViewsOrdered(chs, i + 1, a - 1, b - 1);
      }
    } else {
      ChannelViewsOrdered(chs, i + 1, a, b);
    }
  }

  /** `to_json`: the module's entry, or `None` when no channel has anything
    * set and the module is left out. */
  function ToJson(chs: seq<Channel>): (j: Option<seq<ChannelJson>>)
    ensures j.None? <==> forall k :: 0 <= k < |chs| ==> !AnySet(chs[k])
    ensures j.Some? ==> j.value == ChannelViews(chs, 0) && j.value != []
  {
    if exists k :: 0 <= k < |chs| && AnySet(chs[k]) then
      var k :| 0 <= k < |chs| && AnySet(chs[k]);
      ChannelViewsComplete(chs, 0, k);
      Some(ChannelViews(chs, 0))
    else None
  }

  /** An `A2DConfig` object: the `channels_` array and the generation
    * counter. */
  class A2dConfig {
    const name: CString
    var channels: seq<Channel>
    var generation: u32

    predicate Valid()
      reads this`channels
    {
      |channels| == ChannelCount
    }

    /** A NULL instance name falls back to `a2d`. */
    constructor (instanceName: Option<CString>)
      ensures Valid()
      ensures name == (if instanceName.Some? then instanceName.value else "a2d") && generation == 0
      ensures channels == [DefaultChannel, DefaultChannel, DefaultChannel, DefaultChannel]
    {
      name := if instanceName.Some? then instanceName.value else "a2d";
      channels := [DefaultChannel, DefaultChannel, DefaultChannel, DefaultChannel];
      generation := 0;
    }

    method ApplyUpdate(key: Option<CString>, value: Option<CString>) returns (err: EspErr)
      requires Valid()
      modifies this`channels
      ensures Applied(err, channels) == Apply(old(channels), key, value)
    {
      if key.None? {
        return INVALID_ARG;
      }
      if !HasPrefix(key.value, "ch") {
        return NOT_FOUND;
      }
      err := ApplyChannelKeyUpdate(key.value, value);
    }

    /** `apply_update` for a key that starts with `ch`. */
    method ApplyChannelKeyUpdate(key: CString, value: Option<CString>) returns (err: EspErr)
      requires Valid() && HasPrefix(key, "ch")
      modifies this`channels
      ensures Applied(err, channels) == Apply(old(channels), Some(key), value)
    {
      var scanned := ScanChannelKey(key);
      if scanned.None? {
        return INVALID_ARG;
      }
      var (ch, field) := scanned.value;
      if ch < 1 || ch > 4 {
        return INVALID_ARG;
      }
      ApplyTarget(channels, key, ch, field, value);
      err := UpdateChannel(ch, field, value);
    }

    /** The update of channel `ch` that `apply_update` makes in place. */
    method UpdateChannel(ch: int, field: string, value: Option<CString>) returns (err: EspErr)
      requires Valid() && 1 <= ch <= 4
      modifies this`channels
      ensures var a := ApplyField(old(channels[ch - 1]), field, value);
        Applied(err, channels)
          == if a.err == OK then Applied(OK, old(channels)[ch - 1 := a.state]) else Applied(a.err, old(channels))
    {
      var applied := ApplyField(channels[ch - 1], field, value);
      err := applied.err;
      if err == OK {
        channels := channels[ch - 1 := applied.state];
      }
    }

    /** `channel_config`. */
    function ChannelAt(channel: int): (c: Channel)
      requires Valid()
      reads this
      ensures c == ChannelConfig(channels, channel)
    {
      if channel < 1 || channel > 4 then DefaultChannel else channels[channel - 1]
    }

    /** `mark_updated`: the generation counter is a `uint32_t`. */
    method MarkUpdated()
      modifies this`generation
      ensures generation == WrapU32(old(generation) + 1)
    {
      generation := WrapU32(generation + 1);
    }
  }
}
