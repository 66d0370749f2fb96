/** The configuration manager: the registry of configuration modules, the
  * update entry point that bumps the updated module's generation and keeps
  * the DMA channel with one LED strip, and the router for the MQTT
  * configuration topics. */
module ConfigManager {
  import opened CTypes
  import opened CStr
  import opened ConfigText
  import W = ConfigWifi
  import L = ConfigLed
  import A = ConfigA2d
  import I = ConfigIo

  // ------------------------------------------------------------ registry

  /** The modules `register_modules` registers. The tags, device and motion
    * modules take part in the lookup and in the generation accounting; what
    * their `apply_update` does is not part of this model. */
  datatype Module = Wifi | Tags | Device | Led(n: nat) | A2d(n: nat) | Motion | Io(n: nat)

  predicate Registered(m: Module) {
    match m
    case Led(n) => n < 4
    case A2d(n) => n < 4
    case Io(n) => n < 8
    case _ => true
  }

  const ModuleCount := 20

  /** The position of `m` in `modules_`. */
  function Position(m: Module): (i: nat)
    requires Registered(m)
    ensures i < ModuleCount
  {
    match m
    case Wifi => 0
    case Tags => 1
    case Device => 2
    case Led(n) => 3 + n
    case A2d(n) => 7 + n
    case Motion => 11
    case Io(n) => 12 + n
  }

  /** The module at position `i` of `modules_`. */
  function ModuleAt(i: nat): (m: Module)
    requires i < ModuleCount
    ensures Registered(m) && Position(m) == i
  {
    if i == 0 then Wifi
    else if i == 1 then Tags
    else if i == 2 then Device
    else if i < 7 then Led(i - 3)
    else if i < 11 then A2d(i - 7)
    else if i == 11 then Motion
    else Io(i - 12)
  }

  lemma PositionInverse(m: Module)
    requires Registered(m)
    ensures ModuleAt(Position(m)) == m
  {
  }

  /** What `name()` returns, position by position. The device module's own
    * source is not part of this model; it is taken to be named `device`. */
  const Names: seq<CString> := [
    "wifi", "tags", "device", "led1", "led2", "led3", "led4",
    "a2d1", "a2d2", "a2d3", "a2d4", "motion",
    "io1", "io2", "io3", "io4", "io5", "io6", "io7", "io8"]

  function ModuleName(m: Module): CString
    requires Registered(m)
  {
    Names[Position(m)]
  }

  lemma NamesDistinct()
    ensures |Names| == ModuleCount
    ensures forall i, j :: 0 <= i < j < ModuleCount ==> Names[i] != Names[j]
  {
  }

  /** The first module at or after position `i` named `name`. */
  function FirstNamed(name: CString, i: nat): (r: Option<Module>)
    requires i <= ModuleCount
    ensures r.Some? ==> Registered(r.value) && i <= Position(r.value) && Names[Position(r.value)] == name
    ensures r.Some? ==> forall j :: i <= j < Position(r.value) ==> Names[j] != name
    ensures r.None? ==> forall j :: i <= j < ModuleCount ==> Names[j] != name
    decreases ModuleCount - i
  {
    if i == ModuleCount then None
    else if Names[i] == name then Some(ModuleAt(i))
    else FirstNamed(name, i + 1)
  }

  /** `find_module`: the first registered module with the given name, none
    * for an unknown or NULL name. */
  function Find(name: Option<CString>): (r: Option<Module>)
    ensures r.Some? ==> name.Some? && Registered(r.value) && ModuleName(r.value) == name.value
    ensures r.Some? ==> forall j :: 0 <= j < Position(r.value) ==> Names[j] != name.value
    ensures r.None? <==> name.None? || name.value !in Names
  {
    if name.None? then None else FirstNamed(name.value, 0)
  }

  /** Each module's name finds that module. */
  lemma FindName(m: Module)
    requires Registered(m)
    ensures Find(Some(ModuleName(m))) == Some(m)
  {
    var r := Find(Some(ModuleName(m)));
    assert ModuleName(m) in Names;
    NamesDistinct();
    assert Position(r.value) == Position(m);
    PositionInverse(r.value);
    PositionInverse(m);
  }

  // -------------------------------------------------------------- update

  /** The state of every modelled module, and the generation counters in
    * `modules_` order. */
  datatype Config = Config(
    wifi: W.WifiSettings,
    leds: seq<L.LedSettings>,
    a2ds: seq<seq<A.Channel>>,
    ios: seq<seq<I.Pin>>,
    gens: seq<u32>)

  predicate Shaped(c: Config) {
    && |c.leds| == 4 && |c.a2ds| == 4 && |c.ios| == 8 && |c.gens| == ModuleCount
    && (forall i :: 0 <= i < 4 ==> |c.a2ds[i]| == A.ChannelCount)
    && (forall i :: 0 <= i < 8 ==> |c.ios[i]| == I.PinCount)
  }

  /** `c` and `d` agree on every module other than `m`. */
  predicate Outside(c: Config, d: Config, m: Module)
    requires Shaped(c) && Shaped(d)
  {
    && (!m.Wifi? ==> d.wifi == c.wifi)
    && (forall j :: 0 <= j < 4 && m != Led(j) ==> d.leds[j] == c.leds[j])
    && (forall j :: 0 <= j < 4 && m != A2d(j) ==> d.a2ds[j] == c.a2ds[j])
    && (forall j :: 0 <= j < 8 && m != Io(j) ==> d.ios[j] == c.ios[j])
  }

  /** `apply_update` of strip `n`: only that strip's settings can change,
    * and only when the update is accepted. */
  function ApplyLed(leds: seq<L.LedSettings>, n: nat, key: Option<CString>, value: Option<CString>)
    : (r: Applied<seq<L.LedSettings>>)
    requires n < |leds|
    ensures |r.state| == |leds| && r.state == leds[n := r.state[n]]
    ensures r.err != OK ==> r.state == leds
  {
    var a := L.Apply(leds[n], key, value);
    Applied(a.err, leds[n := a.state])
  }

  /** `apply_update` of A2D module `n`: only its channels can change, and
    * only when the update is accepted. */
  function ApplyA2d(a2ds: seq<seq<A.Channel>>, n: nat, key: Option<CString>, value: Option<CString>)
    : (r: Applied<seq<seq<A.Channel>>>)
    requires n < |a2ds| && |a2ds[n]| == A.ChannelCount
    ensures |r.state| == |a2ds| && r.state == a2ds[n := r.state[n]] && |r.state[n]| == A.ChannelCount
    ensures r.err != OK ==> r.state == a2ds
  {
    var a := A.Apply(a2ds[n], key, value);
    Applied(a.err, a2ds[n := a.state])
  }

  /** `apply_update` of IO module `n`: only its pins can change, and only
    * when the update is accepted. */
  function ApplyIo(ios: seq<seq<I.Pin>>, n: nat, key: Option<CString>, value: Option<CString>)
    : (r: Applied<seq<seq<I.Pin>>>)
    requires n < |ios| && |ios[n]| == I.PinCount
    ensures |r.state| == |ios| && r.state == ios[n := r.state[n]] && |r.state[n]| == I.PinCount
    ensures r.err != OK ==> r.state == ios
  {
    var a := I.Apply(ios[n], key, value);
    Applied(a.err, ios[n := a.state])
  }

  /** Module `n` taking the update and the others staying is `ApplyA2d`. */
  lemma ApplyA2dAt(a2ds: seq<seq<A.Channel>>, n: nat, key: Option<CString>, value: Option<CString>,
                   err: EspErr, after: seq<seq<A.Channel>>)
    requires n < |a2ds| == |after| && |a2ds[n]| == A.ChannelCount
    requires after == a2ds[n := after[n]] && Applied(err, after[n]) == A.Apply(a2ds[n], key, value)
    ensures Applied(err, after) == ApplyA2d(a2ds, n, key, value)
  {
  }

  /** Module `n` taking the update and the others staying is `ApplyIo`. */
  lemma ApplyIoAt(ios: seq<seq<I.Pin>>, n: nat, key: Option<CString>, value: Option<CString>,
                  err: EspErr, after: seq<seq<I.Pin>>)
    requires n < |ios| == |after| && |ios[n]| == I.PinCount
    requires after == ios[n := after[n]] && Applied(err, after[n]) == I.Apply(ios[n], key, value)
    ensures Applied(err, after) == ApplyIo(ios, n, key, value)
  {
  }

  /** `mod->apply_update(key, value)` of module `m`; `otherErr` stands for
    * the result of the modules whose update is not modelled. */
  function ApplyTo(c: Config, m: Module, key: Option<CString>, value: Option<CString>, otherErr: EspErr): (r: Applied<Config>)
    requires Shaped(c) && Registered(m)
    ensures Shaped(r.state) && r.state.gens == c.gens
    ensures r.err != OK ==> r.state == c
  {
    match m
    case Wifi =>
      var a := W.Apply(c.wifi, key, value);
      Applied(a.err, c.(wifi := a.state))
    case Led(n) =>
      var a := ApplyLed(c.leds, n, key, value);
      Applied(a.err, c.(leds := a.state))
    case A2d(n) =>
      var a := ApplyA2d(c.a2ds, n, key, value);
      Applied(a.err, c.(a2ds := a.state))
    case Io(n) =>
      var a := ApplyIo(c.ios, n, key, value);
      Applied(a.err, c.(ios := a.state))
    case _ => Applied(otherErr, c)
  }

  /** An update changes no module but the one it is applied to. */
  lemma ApplyToOutside(c: Config, m: Module, key: Option<CString>, value: Option<CString>, otherErr: EspErr)
    requires Shaped(c) && Registered(m)
    ensures Outside(c, ApplyTo(c, m, key, value, otherErr).state, m)
  {
  }

  /** A `uint32_t` generation counter going up by one at position `i`. */
  function BumpGens(gens: seq<u32>, i: nat): (r: seq<u32>)
    requires i < |gens|
    ensures |r| == |gens| && r[i] == WrapU32(gens[i] as int + 1)
    ensures forall j :: 0 <= j < |gens| && j != i ==> r[j] == gens[j]
  {
    gens[i := WrapU32(gens[i] as int + 1)]
  }

  /** Bumping a counter in a concatenation bumps it in the part that holds it. */
  lemma BumpConcat(x: seq<u32>, y: seq<u32>, i: nat)
    requires i < |x| + |y|
    ensures BumpGens(x + y, i) == if i < |x| then BumpGens(x, i) + y else x + BumpGens(y, i - |x|)
  {
    if i < |x| {
      assert BumpGens(x + y, i) == BumpGens(x, i) + y;
    } else {
      assert BumpGens(x + y, i) == x + BumpGens(y, i - |x|);
    }
  }

  /** `mark_updated` of module `m`: its generation goes up by one. */
  function Bump(c: Config, m: Module): (d: Config)
    requires Shaped(c) && Registered(m)
    ensures Shaped(d)
  {
    c.(gens := BumpGens(c.gens, Position(m)))
  }

  /** `apply_update("dma", nullptr)` on a strip that is to give up its claim. */
  function Released(s: L.LedSettings, release: bool): L.LedSettings {
    if release then L.Apply(s, Some("dma"), None).state else s
  }

  /** The claim on the DMA channel is taken from every strip but `keep`. */
  function ReleaseLeds(leds: seq<L.LedSettings>, keep: nat): (r: seq<L.LedSettings>)
    requires |leds| == 4
    ensures |r| == 4
  {
    [Released(leds[0], keep != 0), Released(leds[1], keep != 1),
     Released(leds[2], keep != 2), Released(leds[3], keep != 3)]
  }

  /** The key is `dma` and the value one of the words that claim it. */
  predicate ClaimsDma(key: Option<CString>, value: Option<CString>) {
    IsKey(key, "dma") && value.Some? && Truthy(value.value)
  }

  /** What follows an accepted update of `m`: its generation is bumped, and
    * a DMA claim by a strip takes the claim from the other strips. */
  function Commit(c: Config, m: Module, key: Option<CString>, value: Option<CString>): (d: Config)
    requires Shaped(c) && Registered(m)
    ensures Shaped(d)
  {
    var b := Bump(c, m);
    if ClaimsDma(key, value) && m.Led? then b.(leds := ReleaseLeds(b.leds, m.n)) else b
  }

  /** `handle_update`: look the module up, apply the update, bump the
    * generation of the updated module, and on a DMA claim by one LED strip
    * release the claims of the other three. `publishResult` is what
    * publishing the full configuration returns. */
  function Handle(c: Config, name: Option<CString>, key: Option<CString>, value: Option<CString>,
                  otherErr: EspErr, publishResult: EspErr): (r: Applied<Config>)
    requires Shaped(c)
    ensures Shaped(r.state)
  {
    var m := Find(name);
    if m.None? then Applied(NOT_FOUND, c)
    else
      var a := ApplyTo(c, m.value, key, value, otherErr);
      if a.err != OK then a
      else Applied(publishResult, Commit(a.state, m.value, key, value))
  }

  /** An unknown or NULL module name changes nothing. */
  lemma HandleUnknown(c: Config, name: Option<CString>, key: Option<CString>, value: Option<CString>,
                      otherErr: EspErr, publishResult: EspErr)
    requires Shaped(c) && (name.None? || name.value !in Names)
    ensures Handle(c, name, key, value, otherErr, publishResult) == Applied(NOT_FOUND, c)
  {
  }

  /** A rejected update is reported as the module reported it, and no
    * generation moves. */
  lemma HandleRejected(c: Config, m: Module, key: Option<CString>, value: Option<CString>,
                       otherErr: EspErr, publishResult: EspErr)
    requires Shaped(c) && Registered(m)
    requires ApplyTo(c, m, key, value, otherErr).err != OK
    ensures Handle(c, Some(ModuleName(m)), key, value, otherErr, publishResult)
      == Applied(ApplyTo(c, m, key, value, otherErr).err, c)
  {
    FindName(m);
  }

  /** An accepted update bumps the generation of the updated module by
    * exactly one and no other generation; the strips whose DMA claim is
    * released keep theirs. */
  lemma HandleBumpsOnce(c: Config, m: Module, key: Option<CString>, value: Option<CString>,
                        otherErr: EspErr, publishResult: EspErr)
    requires Shaped(c) && Registered(m)
    requires ApplyTo(c, m, key, value, otherErr).err == OK
    ensures var r := Handle(c, Some(ModuleName(m)), key, value, otherErr, publishResult);
      && r.err == publishResult
      && r.state.gens[Position(m)] == WrapU32(c.gens[Position(m)] as int + 1)
      && forall j :: 0 <= j < ModuleCount && j != Position(m) ==> r.state.gens[j] == c.gens[j]
  {
    HandleAccepted(c, m, key, value, otherErr, publishResult);
    var a := ApplyTo(c, m, key, value, otherErr).state;
    assert Commit(a, m, key, value).gens == BumpGens(a.gens, Position(m));
  }

  /** An accepted update of a registered module is committed, and the
    * publish result is reported. */
  lemma HandleAccepted(c: Config, m: Module, key: Option<CString>, value: Option<CString>,
                       otherErr: EspErr, publishResult: EspErr)
    requires Shaped(c) && Registered(m)
    requires ApplyTo(c, m, key, value, otherErr).err == OK
    ensures Handle(c, Some(ModuleName(m)), key, value, otherErr, publishResult)
      == Applied(publishResult, Commit(ApplyTo(c, m, key, value, otherErr).state, m, key, value))
  {
    FindName(m);
  }

  /** An accepted update other than a DMA claim by a strip changes no module
    * but the one it names. */
  lemma HandleChangesOnlyTarget(c: Config, m: Module, key: Option<CString>, value: Option<CString>,
                                otherErr: EspErr, publishResult: EspErr)
    requires Shaped(c) && Registered(m)
    requires !(ClaimsDma(key, value) && m.Led?)
    ensures Outside(c, Handle(c, Some(ModuleName(m)), key, value, otherErr, publishResult).state, m)
  {
    FindName(m);
    ApplyToOutside(c, m, key, value, otherErr);
  }

  /** Giving up the claim clears the `dma` setting and its flag, and nothing
    * else. */
  lemma DmaRelease(s: L.LedSettings)
    ensures L.Apply(s, Some("dma"), None) == Applied(OK, s.(dmaSet := false, dma := false))
  {
    assert "dma" !in L.HardwareKeys && "dma" !in L.LookKeys;
  }

  /** A true word given to `dma` claims the channel. */
  lemma DmaClaim(s: L.LedSettings, v: CString)
    requires Truthy(v)
    ensures L.Apply(s, Some("dma"), Some(v)) == Applied(OK, s.(dmaSet := true, dma := true))
  {
    assert "dma" !in L.HardwareKeys && "dma" !in L.LookKeys;
    assert v != "" by { assert LowerStr("") == ""; }
    L.DmaWords(s, v);
  }

  /** A DMA claim by strip `k` always succeeds, leaves `k` holding the
    * channel, and takes the claim from the other three strips, whose other
    * settings stay as they were. */
  lemma HandleDmaExclusive(c: Config, k: nat, key: Option<CString>, value: Option<CString>,
                           otherErr: EspErr, publishResult: EspErr)
    requires Shaped(c) && k < 4 && ClaimsDma(key, value)
    ensures var r := Handle(c, Some(ModuleName(Led(k))), key, value, otherErr, publishResult);
      && r.err == publishResult
      && r.state.leds[k] == c.leds[k].(dmaSet := true, dma := true)
      && forall j :: 0 <= j < 4 && j != k ==> r.state.leds[j] == c.leds[j].(dmaSet := false, dma := false)
  {
    DmaClaim(c.leds[k], value.value);
    var a := ApplyTo(c, Led(k), key, value, otherErr);
    assert a.err == OK && a.state.leds == c.leds[k := c.leds[k].(dmaSet := true, dma := true)];
    HandleAccepted(c, Led(k), key, value, otherErr, publishResult);
    var leds := ReleaseLeds(a.state.leds, k);
    assert Commit(a.state, Led(k), key, value).leds == leds;
    forall j | 0 <= j < 4 && j != k
      ensures leds[j] == c.leds[j].(dmaSet := false, dma := false)
    {
      ReleasedAt(a.state.leds, k, j);
      DmaRelease(c.leds[j]);
    }
    ReleasedAt(a.state.leds, k, k);
  }

  /** Strip `j` after the release that keeps `keep`. */
  lemma ReleasedAt(leds: seq<L.LedSettings>, keep: nat, j: nat)
    requires |leds| == 4 && j < 4
    ensures ReleaseLeds(leds, keep)[j] == Released(leds[j], keep != j)
  {
  }
  /** The generations in `modules_` order are the wifi, tags and device
    * modules, the strips, the A2D modules, motion and the IO modules; a bump
    * lands in the group that holds its position. */
  lemma BumpParts(h: seq<u32>, l: seq<u32>, a: seq<u32>, mo: seq<u32>, io: seq<u32>, i: nat)
    requires |h| == 3 && |l| == 4 && |a| == 4 && |mo| == 1 && |io| == 8 && i < ModuleCount
    ensures BumpGens(h + l + a + mo + io, i) ==
      if i < 3 then BumpGens(h, i) + l + a + mo + io
      else if i < 7 then h + BumpGens(l, i - 3) + a + mo + io
      else if i < 11 then h + l + BumpGens(a, i - 7) + mo + io
      else if i < 12 then h + l + a + BumpGens(mo, 0) + io
      else h + l + a + mo + BumpGens(io, i - 12)
  {
    BumpConcat(h + l + a + mo, io, i);
    if i < 12 {
      BumpConcat(h + l + a, mo, i);
      if i < 11 {
        BumpConcat(h + l, a, i);
        if i < 7 {
          BumpConcat(h, l, i);
        }
      }
    }
  }

  // ------------------------------------------------------------- topics

  /** What `handle_mqtt_message` makes of a topic. */
  datatype Topic = BadTopic | ResetTopic | UpdateTopic(target: CString, key: CString)

  const ResetMarker := "/config/reset"
  const ConfigMarker := "/config/"

  /** The topic parse of `handle_mqtt_message`: a topic that mentions
    * `/config/reset` anywhere resets; otherwise the text after the first
    * `/config/` is split into a module name and a key. */
  function RouteTopic(topic: Option<CString>): (r: Topic)
    ensures topic.None? ==> r == BadTopic
    ensures r.ResetTopic? <==> topic.Some? && Contains(topic.value, ResetMarker)
  {
    if topic.None? then BadTopic
    else if StrStr(topic.value, ResetMarker).Some? then ResetTopic
    else RouteConfigTopic(topic.value)
  }

  /** The part of the parse after the reset test. */
  function RouteConfigTopic(t: CString): (r: Topic)
    ensures !r.ResetTopic?
    ensures !Contains(t, ConfigMarker) ==> r == BadTopic
  {
    var p := StrStr(t, ConfigMarker);
    if p.None? then BadTopic else SplitTarget(t[p.value + |ConfigMarker|..])
  }

  /** `strchr(p, '/')`: the module name runs up to the first `/`, the key
    * is the rest and must not be empty. */
  function SplitTarget(rest: CString): (r: Topic)
    ensures !r.ResetTopic?
    ensures r.UpdateTopic? ==> '/' !in r.target && r.key != [] && rest == r.target + "/" + r.key
    ensures '/' !in rest ==> r == BadTopic
  {
    var slash := StrChr(rest, '/');
    if slash.None? || slash.value + 1 == |rest| then BadTopic
    else
      var r := UpdateTopic(rest[..slash.value], rest[slash.value + 1..]);
      assert rest == rest[..slash.value] + [rest[slash.value]] + rest[slash.value + 1..];
      r
  }

  /** `s` ends `t`. */
  predicate EndsIn(t: string, s: string) {
    |s| <= |t| && t[|t| - |s|..] == s
  }

  /** A routed update names a module without `/` and a non-empty key that
    * end the topic, after a `/config/`, and the topic asks for no reset. */
  lemma RouteTopicShape(topic: Option<CString>)
    requires RouteTopic(topic).UpdateTopic?
    ensures var r := RouteTopic(topic);
      && topic.Some? && !Contains(topic.value, ResetMarker)
      && '/' !in r.target && r.key != []
      && EndsIn(topic.value, ConfigMarker + r.target + "/" + r.key)
  {
    assert RouteTopic(topic) == RouteConfigTopic(topic.value);
    ConfigTopicShape(topic.value);
  }

  /** The part after the reset test: the update ends the topic. */
  lemma ConfigTopicShape(t: CString)
    requires RouteConfigTopic(t).UpdateTopic?
    ensures var r := RouteConfigTopic(t);
      '/' !in r.target && r.key != [] && EndsIn(t, ConfigMarker + r.target + "/" + r.key)
  {
    var p := StrStr(t, ConfigMarker).value;
    var r := RouteConfigTopic(t);
    assert r == SplitTarget(t[p + |ConfigMarker|..]);
    EndsAfter(t, p, ConfigMarker, r.target, r.key);
  }

  /** A marker at `p` followed by `<a>/<b>` to the end of `t` ends `t`. */
  lemma EndsAfter(t: string, p: nat, m: string, a: string, b: string)
    requires OccursAt(t, m, p) && t[p + |m|..] == a + "/" + b
    ensures EndsIn(t, m + a + "/" + b)
  {
    assert t[p..] == t[p..p + |m|] + t[p + |m|..];
  }

  /** A topic is routed by its first `/config/`. */
  lemma FirstConfigMarker(pre: string, tail: string)
    requires !Contains(pre + "/config", ConfigMarker)
    ensures StrStr(pre + ConfigMarker + tail, ConfigMarker) == Some(|pre|)
  {
    var t := pre + ConfigMarker + tail;
    assert OccursAt(t, ConfigMarker, |pre|) by {
      assert t[|pre|..|pre| + 8] == ConfigMarker;
    }
    var p := StrStr(t, ConfigMarker);
    if p.value < |pre| {
      var u := pre + "/config";
      assert u[p.value..p.value + 8] == t[p.value..p.value + 8];
      assert OccursAt(u, ConfigMarker, p.value);
      assert false;
    }
  }

  lemma SplitTargetOf(target: CString, key: CString)
    requires '/' !in target && key != []
    ensures SplitTarget(target + "/" + key) == UpdateTopic(target, key)
  {
    var rest := target + "/" + key;
    assert rest[|target|] == '/';
    assert rest[..|target|] == target;
    assert StrChr(rest, '/') == Some(|target|);
    assert rest[|target| + 1..] == key;
  }

  lemma DropMarker(pre: string, rest: string)
    ensures (pre + ConfigMarker + rest)[|pre| + |ConfigMarker|..] == rest
  {
    assert pre + ConfigMarker + rest == (pre + ConfigMarker) + rest;
  }

  /** A topic `<pre>/config/<target>/<key>` is routed to that module and
    * key, when `/config/` first occurs there, the module name has no `/`,
    * the key is not empty and the topic does not ask for a reset. */
  lemma TopicRoundTrip(pre: CString, target: CString, key: CString)
    requires !Contains(pre + "/config", ConfigMarker)
    requires '/' !in target && key != []
    requires !Contains(pre + ConfigMarker + target + "/" + key, ResetMarker)
    ensures RouteTopic(Some(pre + ConfigMarker + target + "/" + key)) == UpdateTopic(target, key)
  {
    var rest := target + "/" + key;
    assert pre + ConfigMarker + target + "/" + key == pre + ConfigMarker + rest;
    FirstConfigMarker(pre, rest);
    DropMarker(pre, rest);
    SplitTargetOf(target, key);
  }

  /** A topic that ends right after the module name, or after its `/`, is
    * refused, unless it mentions `/config/reset`. */
  lemma MissingKeyRejected(pre: CString, target: CString, slash: bool)
    requires !Contains(pre + "/config", ConfigMarker) && '/' !in target
    requires !Contains(pre + ConfigMarker + target + (if slash then "/" else ""), ResetMarker)
    ensures RouteTopic(Some(pre + ConfigMarker + target + (if slash then "/" else ""))) == BadTopic
  {
    var rest := target + (if slash then "/" else "");
    assert pre + ConfigMarker + target + (if slash then "/" else "") == pre + ConfigMarker + rest;
    FirstConfigMarker(pre, rest);
    DropMarker(pre, rest);
    if slash {
      assert StrChr(rest, '/') == Some(|target|) by {
        assert rest[|target|] == '/' && rest[..|target|] == target;
      }
    }
  }

  /** `/config/reset` anywhere in a topic selects the reset, even where it
    * starts a module name such as `resetter`. */
  lemma ResetAnywhere(pre: CString, post: CString)
    ensures RouteTopic(Some(pre + ResetMarker + post)) == ResetTopic
  {
    var t := pre + ResetMarker + post;
    assert t[|pre|..|pre| + |ResetMarker|] == ResetMarker;
    assert OccursAt(t, ResetMarker, |pre|);
  }

  // ------------------------------------------------------------- objects

  predicate Distinct3<T(==)>(a: T, b: T, c: T) {
    a != b && a != c && b != c
  }

  predicate Distinct4<T(==)>(a: T, b: T, c: T, d: T) {
    Distinct3(a, b, c) && a != d && b != d && c != d
  }

  /** Two sequences that agree everywhere except at `n`. */
  lemma UpdatedAt<T>(a: seq<T>, b: seq<T>, n: nat)
    requires |a| == |b| && n < |a|
    requires forall j | 0 <= j < |a| && j != n :: b[j] == a[j]
    ensures b == a[n := b[n]]
  {
  }

  predicate Distinct8<T(==)>(a: T, b: T, c: T, d: T, e: T, f: T, g: T, h: T) {
    && Distinct4(a, b, c, d) && Distinct4(e, f, g, h)
    && a != e && a != f && a != g && a != h
    && b != e && b != f && b != g && b != h
    && c != e && c != f && c != g && c != h
    && d != e && d != f && d != g && d != h
  }

  /** A registered module whose settings are not part of this model: only
    * its name and generation counter are. */
  class OtherModule {
    const name: CString
    var generation: u32

    constructor (instanceName: CString)
      ensures name == instanceName && generation == 0
    {
      name := instanceName;
      generation := 0;
    }

    /** `mark_updated`. */
    method MarkUpdated()
      modifies this`generation
      ensures generation == WrapU32(old(generation) + 1)
    {
      generation := WrapU32(generation + 1);
    }
  }

  /** The `ConfigurationManager` and the module objects it owns. */
  class ConfigurationManager {
    const wifi: W.WifiConfig
    const tags: OtherModule
    const device: OtherModule
    const led1: L.LedConfig
    const led2: L.LedConfig
    const led3: L.LedConfig
    const led4: L.LedConfig
    const a2d1: A.A2dConfig
    const a2d2: A.A2dConfig
    const a2d3: A.A2dConfig
    const a2d4: A.A2dConfig
    const motion: OtherModule
    const io1: I.IoConfig
    const io2: I.IoConfig
    const io3: I.IoConfig
    const io4: I.IoConfig
    const io5: I.IoConfig
    const io6: I.IoConfig
    const io7: I.IoConfig
    const io8: I.IoConfig

    function Leds(): seq<L.LedConfig> {
      [led1, led2, led3, led4]
    }

    function A2ds(): seq<A.A2dConfig> {
      [a2d1, a2d2, a2d3, a2d4]
    }

    function Ios(): seq<I.IoConfig> {
      [io1, io2, io3, io4, io5, io6, io7, io8]
    }

    /** The strips are distinct objects. */
    predicate LedsReady() {
      Distinct4(led1, led2, led3, led4)
    }

    /** The A2D modules are distinct objects. */
    predicate A2dsReady() {
      Distinct4(a2d1, a2d2, a2d3, a2d4)
    }

    /** The IO modules are distinct objects. */
    predicate IosReady() {
      Distinct8(io1, io2, io3, io4, io5, io6, io7, io8)
    }

    /** The modules are distinct objects. */
    predicate Valid() {
      && Distinct3(tags, device, motion)
      && LedsReady() && A2dsReady() && IosReady()
    }

    /** The modules carry the registered names. */
    predicate Named() {
      && tags.name == Names[1] && device.name == Names[2] && motion.name == Names[11]
      && led1.name == Names[3] && led2.name == Names[4] && led3.name == Names[5] && led4.name == Names[6]
      && a2d1.name == Names[7] && a2d2.name == Names[8] && a2d3.name == Names[9] && a2d4.name == Names[10]
      && io1.name == Names[12] && io2.name == Names[13] && io3.name == Names[14] && io4.name == Names[15]
      && io5.name == Names[16] && io6.name == Names[17] && io7.name == Names[18] && io8.name == Names[19]
    }

    /** Every object the manager owns. */
    ghost function Repr(): set<object> {
      {wifi, tags, device, motion} + LedRepr() + A2dRepr() + IoRepr()
    }

    ghost function LedRepr(): set<object> {
      {led1, led2, led3, led4}
    }

    ghost function A2dRepr(): set<object> {
      {a2d1, a2d2, a2d3, a2d4}
    }

    ghost function IoRepr(): set<object> {
      {io1, io2, io3, io4, io5, io6, io7, io8}
    }

    function LedPart(): seq<L.LedSettings>
      reads led1`settings, led2`settings, led3`settings, led4`settings
    {
      [led1.settings, led2.settings, led3.settings, led4.settings]
    }

    function A2dPart(): seq<seq<A.Channel>>
      reads a2d1`channels, a2d2`channels, a2d3`channels, a2d4`channels
    {
      [a2d1.channels, a2d2.channels, a2d3.channels, a2d4.channels]
    }

    function IoPart(): seq<seq<I.Pin>>
      reads io1`pins, io2`pins, io3`pins, io4`pins, io5`pins, io6`pins, io7`pins, io8`pins
    {
      [io1.pins, io2.pins, io3.pins, io4.pins,
       io5.pins, io6.pins, io7.pins, io8.pins]
    }

    lemma A2dPartAt(j: nat)
      requires j < 4
      ensures A2dPart()[j] == A2ds()[j].channels
    {
    }

    lemma IoPartAt(j: nat)
      requires j < 8
      ensures IoPart()[j] == Ios()[j].pins
    {
    }

    lemma A2dsApart(j: nat, k: nat)
      requires A2dsReady() && j < 4 && k < 4 && j != k
      ensures A2ds()[j] != A2ds()[k]
    {
    }

    lemma IosApart(j: nat, k: nat)
      requires IosReady() && j < 8 && k < 8 && j != k
      ensures Ios()[j] != Ios()[k]
    {
    }

    function HeadGens(): seq<u32>
      reads wifi`generation, tags`generation, device`generation
    {
      [wifi.generation, tags.generation, device.generation]
    }

    function LedGens(): seq<u32>
      reads led1`generation, led2`generation, led3`generation, led4`generation
    {
      [led1.generation, led2.generation, led3.generation, led4.generation]
    }

    function A2dGens(): seq<u32>
      reads a2d1`generation, a2d2`generation, a2d3`generation, a2d4`generation
    {
      [a2d1.generation, a2d2.generation, a2d3.generation, a2d4.generation]
    }

    function IoGens(): seq<u32>
      reads io1`generation, io2`generation, io3`generation, io4`generation
      reads io5`generation, io6`generation, io7`generation, io8`generation
    {
      [io1.generation, io2.generation, io3.generation, io4.generation,
       io5.generation, io6.generation, io7.generation, io8.generation]
    }

    /** The generation counters in `modules_` order. */
    function Gens(): seq<u32>
      reads wifi`generation, tags`generation, device`generation, motion`generation
      reads led1`generation, led2`generation, led3`generation, led4`generation
      reads a2d1`generation, a2d2`generation, a2d3`generation, a2d4`generation
      reads io1`generation, io2`generation, io3`generation, io4`generation
      reads io5`generation, io6`generation, io7`generation, io8`generation
    {
      HeadGens() + LedGens() + A2dGens() + [motion.generation] + IoGens()
    }

    /** The modules hold the configuration `c`. */
    predicate Holds(c: Config)
      reads Repr()
    {
      && wifi.Current() == c.wifi && LedPart() == c.leds && A2dPart() == c.a2ds
      && IoPart() == c.ios && Gens() == c.gens
    }

    /** `register_modules`: every module freshly constructed with its
      * defaults and generation 0. */
    constructor ()
      ensures Valid() && Named() && Holds(Initial())
    {
      wifi := new W.WifiConfig();
      tags := new OtherModule(Names[1]);
      device := new OtherModule(Names[2]);
      motion := new OtherModule(Names[11]);
      var l1, l2, l3, l4 := NewLeds();
      var a1, a2, a3, a4 := NewA2ds();
      var i1, i2, i3, i4, i5, i6, i7, i8 := NewIos();
      led1, led2, led3, led4 := l1, l2, l3, l4;
      a2d1, a2d2, a2d3, a2d4 := a1, a2, a3, a4;
      io1, io2, io3, io4, io5, io6, io7, io8 := i1, i2, i3, i4, i5, i6, i7, i8;
      new;
      InitialGens(HeadGens(), LedGens(), A2dGens(), [motion.generation], IoGens());
    }

    /** `find_module`. */
    method FindModule(name: Option<CString>) returns (m: Option<Module>)
      ensures m == Find(name)
    {
      if name.None? {
        return None;
      }
      var i := 0;
      while i < ModuleCount
        invariant 0 <= i <= ModuleCount
        invariant FirstNamed(name.value, i) == FirstNamed(name.value, 0)
      {
        if Names[i] == name.value {
          return Some(ModuleAt(i));
        }
        i := i + 1;
      }
      return None;
    }

    /** `mod->apply_update(key, value)` for the module `m` found. */
    method ApplyModuleUpdate(ghost c: Config, m: Module, key: Option<CString>, value: Option<CString>,
                             otherErr: EspErr) returns (err: EspErr)
      requires Valid() && Shaped(c) && Holds(c) && Registered(m)
      modifies wifi, led1`settings, led2`settings, led3`settings, led4`settings
      modifies a2d1`channels, a2d2`channels, a2d3`channels, a2d4`channels
      modifies io1`pins, io2`pins, io3`pins, io4`pins, io5`pins, io6`pins, io7`pins, io8`pins
      ensures var r := ApplyTo(c, m, key, value, otherErr); err == r.err && Holds(r.state)
    {
      match m
      case Wifi =>
        err := wifi.ApplyUpdate(key, value);
      case Led(n) =>
        err := ApplyLedUpdate(c, n, key, value);
      case A2d(n) =>
        err := ApplyA2dUpdate(c, n, key, value);
      case Io(n) =>
        err := ApplyIoUpdate(c, n, key, value);
      case _ =>
        err := otherErr;
    }

    method ApplyLedUpdate(ghost c: Config, n: nat, key: Option<CString>, value: Option<CString>)
      returns (err: EspErr)
      requires Valid() && Shaped(c) && Holds(c) && n < 4
      modifies led1`settings, led2`settings, led3`settings, led4`settings
      ensures var r := ApplyLed(c.leds, n, key, value); err == r.err && Holds(c.(leds := r.state))
    {
      err := UpdateLed(n, key, value);
    }

    method ApplyA2dUpdate(ghost c: Config, n: nat, key: Option<CString>, value: Option<CString>)
      returns (err: EspErr)
      requires Valid() && Shaped(c) && Holds(c) && n < 4
      modifies a2d1`channels, a2d2`channels, a2d3`channels, a2d4`channels
      ensures var r := ApplyA2d(c.a2ds, n, key, value); err == r.err && Holds(c.(a2ds := r.state))
    {
      ghost var before := A2dPart();
      forall j | 0 <= j < 4
        ensures before[j] == A2ds()[j].channels
      {
        A2dPartAt(j);
      }
      err := UpdateA2d(n, key, value);
      forall j | 0 <= j < 4
        ensures A2dPart()[j] == A2ds()[j].channels
      {
        A2dPartAt(j);
      }
      UpdatedAt(before, A2dPart(), n);
      ApplyA2dAt(c.a2ds, n, key, value, err, A2dPart());
    }

    method ApplyIoUpdate(ghost c: Config, n: nat, key: Option<CString>, value: Option<CString>)
      returns (err: EspErr)
      requires Valid() && Shaped(c) && Holds(c) && n < 8
      modifies io1`pins, io2`pins, io3`pins, io4`pins, io5`pins, io6`pins, io7`pins, io8`pins
      ensures var r := ApplyIo(c.ios, n, key, value); err == r.err && Holds(c.(ios := r.state))
    {
      ghost var before := IoPart();
      forall j | 0 <= j < 8
        ensures before[j] == Ios()[j].pins
      {
        IoPartAt(j);
      }
      err := UpdateIo(n, key, value);
      forall j | 0 <= j < 8
        ensures IoPart()[j] == Ios()[j].pins
      {
        IoPartAt(j);
      }
      UpdatedAt(before, IoPart(), n);
      ApplyIoAt(c.ios, n, key, value, err, IoPart());
    }

    method UpdateLed(n: nat, key: Option<CString>, value: Option<CString>) returns (err: EspErr)
      requires LedsReady() && n < 4
      modifies led1`settings, led2`settings, led3`settings, led4`settings
      ensures Applied(err, LedPart()) == ApplyLed(old(LedPart()), n, key, value)
    {
      ghost var c := LedPart();
      var led := Leds()[n];
      err := led.ApplyUpdate(key, value);
      forall j | 0 <= j < 4 && j != n
        ensures LedPart()[j] == c[j]
      {
        assert Leds()[j] != led;
      }
      assert LedPart() == c[n := led.settings];
    }



    /** `apply_update` on A2D module `n`: its channels take the update and
      * the other modules' channels stay. */
    method UpdateA2d(n: nat, key: Option<CString>, value: Option<CString>) returns (err: EspErr)
      requires A2dsReady() && n < 4 && |A2ds()[n].channels| == A.ChannelCount
      modifies a2d1`channels, a2d2`channels, a2d3`channels, a2d4`channels
      ensures forall j | 0 <= j < 4 && j != n :: A2ds()[j].channels == old(A2ds()[j].channels)
      ensures Applied(err, A2ds()[n].channels) == A.Apply(old(A2ds()[n].channels), key, value)
    {
      var a2d := A2ds()[n];
      forall j | 0 <= j < 4 && j != n
        ensures A2ds()[j] != a2d
      {
        A2dsApart(j, n);
      }
      ghost var was := a2d.channels;
      err := a2d.ApplyUpdate(key, value);
      assert Applied(err, a2d.channels) == A.Apply(was, key, value);
    }

    /** `apply_update` on IO module `n`: its pins take the update and the
      * other modules' pins stay. */
    method UpdateIo(n: nat, key: Option<CString>, value: Option<CString>) returns (err: EspErr)
      requires IosReady() && n < 8 && |Ios()[n].pins| == I.PinCount
      modifies io1`pins, io2`pins, io3`pins, io4`pins, io5`pins, io6`pins, io7`pins, io8`pins
      ensures forall j | 0 <= j < 8 && j != n :: Ios()[j].pins == old(Ios()[j].pins)
      ensures Applied(err, Ios()[n].pins) == I.Apply(old(Ios()[n].pins), key, value)
    {
      var io := Ios()[n];
      forall j | 0 <= j < 8 && j != n
        ensures Ios()[j] != io
      {
        IosApart(j, n);
      }
      ghost var was := io.pins;
      err := io.ApplyUpdate(key, value);
      assert Applied(err, io.pins) == I.Apply(was, key, value);
    }

    /** `mod->mark_updated()` for the module `m`. */
    method MarkUpdated(ghost c: Config, m: Module)
      requires Valid() && Shaped(c) && Holds(c) && Registered(m)
      modifies wifi`generation, tags`generation, device`generation, motion`generation
      modifies led1`generation, led2`generation, led3`generation, led4`generation
      modifies a2d1`generation, a2d2`generation, a2d3`generation, a2d4`generation
      modifies io1`generation, io2`generation, io3`generation, io4`generation
      modifies io5`generation, io6`generation, io7`generation, io8`generation
      ensures Holds(Bump(c, m))
    {
      match m
      case Wifi => MarkWifi(c);
      case Tags => MarkTags(c);
      case Device => MarkDevice(c);
      case Led(n) => MarkLedModule(c, n);
      case A2d(n) => MarkA2dModule(c, n);
      case Motion => MarkMotion(c);
      case Io(n) => MarkIoModule(c, n);
    }

    method MarkWifi(ghost c: Config)
      requires Valid() && Shaped(c) && Holds(c)
      modifies wifi`generation
      ensures Holds(Bump(c, Wifi))
    {
      BumpParts(HeadGens(), LedGens(), A2dGens(), [motion.generation], IoGens(), 0);
      wifi.MarkUpdated();
    }

    method MarkTags(ghost c: Config)
      requires Valid() && Shaped(c) && Holds(c)
      modifies tags`generation
      ensures Holds(Bump(c, Tags))
    {
      BumpParts(HeadGens(), LedGens(), A2dGens(), [motion.generation], IoGens(), 1);
      tags.MarkUpdated();
    }

    method MarkDevice(ghost c: Config)
      requires Valid() && Shaped(c) && Holds(c)
      modifies device`generation
      ensures Holds(Bump(c, Device))
    {
      BumpParts(HeadGens(), LedGens(), A2dGens(), [motion.generation], IoGens(), 2);
      device.MarkUpdated();
    }

    method MarkLedModule(ghost c: Config, n: nat)
      requires Valid() && Shaped(c) && Holds(c) && n < 4
      modifies led1`generation, led2`generation, led3`generation, led4`generation
      ensures Holds(Bump(c, Led(n)))
    {
      BumpParts(HeadGens(), LedGens(), A2dGens(), [motion.generation], IoGens(), 3 + n);
      MarkLed(n);
    }

    method MarkA2dModule(ghost c: Config, n: nat)
      requires Valid() && Shaped(c) && Holds(c) && n < 4
      modifies a2d1`generation, a2d2`generation, a2d3`generation, a2d4`generation
      ensures Holds(Bump(c, A2d(n)))
    {
      BumpParts(HeadGens(), LedGens(), A2dGens(), [motion.generation], IoGens(), 7 + n);
      MarkA2d(n);
    }

    method MarkMotion(ghost c: Config)
      requires Valid() && Shaped(c) && Holds(c)
      modifies motion`generation
      ensures Holds(Bump(c, Motion))
    {
      BumpParts(HeadGens(), LedGens(), A2dGens(), [motion.generation], IoGens(), 11);
      motion.MarkUpdated();
    }

    method MarkIoModule(ghost c: Config, n: nat)
      requires Valid() && Shaped(c) && Holds(c) && n < 8
      modifies io1`generation, io2`generation, io3`generation, io4`generation
      modifies io5`generation, io6`generation, io7`generation, io8`generation
      ensures Holds(Bump(c, Io(n)))
    {
      BumpParts(HeadGens(), LedGens(), A2dGens(), [motion.generation], IoGens(), 12 + n);
      MarkIo(n);
    }

    method MarkLed(n: nat)
      requires LedsReady() && n < 4
      modifies led1`generation, led2`generation, led3`generation, led4`generation
      ensures LedGens() == BumpGens(old(LedGens()), n)
    {
      ghost var c := LedGens();
      var led := Leds()[n];
      led.MarkUpdated();
      forall j | 0 <= j < 4 && j != n
        ensures LedGens()[j] == c[j]
      {
        assert Leds()[j] != led;
      }
      assert LedGens() == c[n := led.generation];
    }

    method MarkA2d(n: nat)
      requires A2dsReady() && n < 4
      modifies a2d1`generation, a2d2`generation, a2d3`generation, a2d4`generation
      ensures A2dGens() == BumpGens(old(A2dGens()), n)
    {
      ghost var c := A2dGens();
      var a2d: A.A2dConfig := A2ds()[n];
      a2d.MarkUpdated();
      forall j | 0 <= j < 4 && j != n
        ensures A2dGens()[j] == c[j]
      {
        assert A2ds()[j] != a2d;
      }
      assert A2dGens() == c[n := a2d.generation];
    }

    method MarkIo(n: nat)
      requires IosReady() && n < 8
      modifies io1`generation, io2`generation, io3`generation, io4`generation
      modifies io5`generation, io6`generation, io7`generation, io8`generation
      ensures IoGens() == BumpGens(old(IoGens()), n)
    {
      ghost var c := IoGens();
      var io: I.IoConfig := Ios()[n];
      io.MarkUpdated();
      forall j | 0 <= j < 8 && j != n
        ensures IoGens()[j] == c[j]
      {
        assert Ios()[j] != io;
      }
      assert IoGens() == c[n := io.generation];
    }

    /** The strips other than `keep` give up their claim on the DMA channel. */
    method ReleaseOtherClaims(keep: nat)
      requires LedsReady() && keep < 4
      modifies led1`settings, led2`settings, led3`settings, led4`settings
      ensures LedPart() == ReleaseLeds(old(LedPart()), keep)
    {
      var ignored: EspErr;
      if keep != 0 { ignored := led1.ApplyUpdate(Some("dma"), None); }
      if keep != 1 { ignored := led2.ApplyUpdate(Some("dma"), None); }
      if keep != 2 { ignored := led3.ApplyUpdate(Some("dma"), None); }
      if keep != 3 { ignored := led4.ApplyUpdate(Some("dma"), None); }
    }

    method ReleaseClaims(ghost c: Config, keep: nat)
      requires Valid() && Shaped(c) && Holds(c) && keep < 4
      modifies led1`settings, led2`settings, led3`settings, led4`settings
      ensures Holds(c.(leds := ReleaseLeds(c.leds, keep)))
    {
      ReleaseOtherClaims(keep);
    }

    /** An accepted update of `m`: `mark_updated`, then the release of the
      * other strips' DMA claims when a strip claimed it. */
    method CommitUpdate(ghost c: Config, m: Module, key: Option<CString>, value: Option<CString>)
      requires Valid() && Shaped(c) && Holds(c) && Registered(m)
      modifies wifi`generation, tags`generation, device`generation, motion`generation
      modifies led1`generation, led2`generation, led3`generation, led4`generation
      modifies a2d1`generation, a2d2`generation, a2d3`generation, a2d4`generation
      modifies io1`generation, io2`generation, io3`generation, io4`generation
      modifies io5`generation, io6`generation, io7`generation, io8`generation
      modifies led1`settings, led2`settings, led3`settings, led4`settings
      ensures Holds(Commit(c, m, key, value))
    {
      MarkUpdated(c, m);
      if ClaimsDma(key, value) && m.Led? {
        ReleaseClaims(Bump(c, m), m.n);
      }
    }

    /** `handle_update`; persisting the value in NVS is not modelled. */
    method HandleUpdate(ghost c: Config, name: Option<CString>, key: Option<CString>, value: Option<CString>,
                        otherErr: EspErr, publishResult: EspErr) returns (err: EspErr)
      requires Valid() && Shaped(c) && Holds(c)
      modifies Repr()
      ensures var r := Handle(c, name, key, value, otherErr, publishResult); err == r.err && Holds(r.state)
    {
      var m := FindModule(name);
      if m.None? {
        return NOT_FOUND;
      }
      err := ApplyModuleUpdate(c, m.value, key, value, otherErr);
      if err != OK {
        return;
      }
      CommitUpdate(ApplyTo(c, m.value, key, value, otherErr).state, m.value, key, value);
      err := publishResult;
    }

    /** `handle_mqtt_message`. A reset topic hands the payload to
      * `handle_config_reset`, which is not part of this model; its result
      * is `resetResult`. */
    method HandleMqttMessage(ghost c: Config, topic: Option<CString>, payload: Option<CString>,
                             resetResult: EspErr, otherErr: EspErr, publishResult: EspErr) returns (err: EspErr)
      requires Valid() && Shaped(c) && Holds(c)
      modifies Repr()
      ensures RouteTopic(topic).BadTopic? ==> err == INVALID_ARG && Holds(c)
      ensures RouteTopic(topic).ResetTopic? ==> err == resetResult
      ensures RouteTopic(topic).UpdateTopic? ==>
        var t := RouteTopic(topic);
        var r := Handle(c, Some(t.target), Some(t.key), payload, otherErr, publishResult);
        err == r.err && Holds(r.state)
    {
      var route := RouteTopic(topic);
      match route
      case BadTopic =>
        err := INVALID_ARG;
      case ResetTopic =>
        err := resetResult;
      case UpdateTopic(target, key) =>
        err := HandleUpdate(c, Some(target), Some(key), payload, otherErr, publishResult);
    }

    /** `active_leds`: the strips that have a data GPIO, in order. */
    method ActiveLeds() returns (r: seq<L.LedConfig>)
      ensures Lists(r, Leds(), ActiveIndices(LedPart(), 4))
    {
      ghost var objs, leds := Leds(), LedPart();
      r := [];
      r := AddIfActive(r, led1, objs, leds, 0);
      r := AddIfActive(r, led2, objs, leds, 1);
      r := AddIfActive(r, led3, objs, leds, 2);
      r := AddIfActive(r, led4, objs, leds, 3);
    }
  }

  /** One strip of `active_leds`: listed when it has a data GPIO. */
  method AddIfActive(r: seq<L.LedConfig>, led: L.LedConfig, ghost objs: seq<L.LedConfig>,
                     ghost leds: seq<L.LedSettings>, ghost n: nat) returns (next: seq<L.LedConfig>)
    requires n < |leds| == |objs| && objs[n] == led && leds[n] == led.settings
    requires Lists(r, objs, ActiveIndices(leds, n))
    ensures Lists(next, objs, ActiveIndices(leds, n + 1))
  {
    next := r;
    if led.HasDataGpio() {
      next := r + [led];
    }
    ListsStep(r, objs, leds, n, next);
  }

  /** The four `LEDConfig` modules as `register_modules` creates them. */
  method NewLeds() returns (l1: L.LedConfig, l2: L.LedConfig, l3: L.LedConfig, l4: L.LedConfig)
    ensures fresh(l1) && fresh(l2) && fresh(l3) && fresh(l4) && Distinct4(l1, l2, l3, l4)
    ensures l1.name == Names[3] && l2.name == Names[4] && l3.name == Names[5] && l4.name == Names[6]
    ensures [l1.settings, l2.settings, l3.settings, l4.settings] == [L.Defaults, L.Defaults, L.Defaults, L.Defaults]
    ensures [l1.generation, l2.generation, l3.generation, l4.generation] == [0, 0, 0, 0]
  {
    l1 := new L.LedConfig(Some("led1"));
    l2 := new L.LedConfig(Some("led2"));
    l3 := new L.LedConfig(Some("led3"));
    l4 := new L.LedConfig(Some("led4"));
  }

  /** The four `A2DConfig` modules as `register_modules` creates them. */
  method NewA2ds() returns (a1: A.A2dConfig, a2: A.A2dConfig, a3: A.A2dConfig, a4: A.A2dConfig)
    ensures fresh(a1) && fresh(a2) && fresh(a3) && fresh(a4) && Distinct4(a1, a2, a3, a4)
    ensures a1.name == Names[7] && a2.name == Names[8] && a3.name == Names[9] && a4.name == Names[10]
    ensures [a1.channels, a2.channels, a3.channels, a4.channels]
      == [DefaultChannels, DefaultChannels, DefaultChannels, DefaultChannels]
    ensures [a1.generation, a2.generation, a3.generation, a4.generation] == [0, 0, 0, 0]
  {
    a1 := new A.A2dConfig(Some("a2d1"));
    a2 := new A.A2dConfig(Some("a2d2"));
    a3 := new A.A2dConfig(Some("a2d3"));
    a4 := new A.A2dConfig(Some("a2d4"));
  }

  /** Four `IOConfig` modules named `io<k+1>` .. `io<k+4>`. */
  method NewIoQuad(k: nat) returns (i1: I.IoConfig, i2: I.IoConfig, i3: I.IoConfig, i4: I.IoConfig)
    requires k == 0 || k == 4
    ensures fresh(i1) && fresh(i2) && fresh(i3) && fresh(i4) && Distinct4(i1, i2, i3, i4)
    ensures i1.name == Names[12 + k] && i2.name == Names[13 + k] && i3.name == Names[14 + k] && i4.name == Names[15 + k]
    ensures [i1.pins, i2.pins, i3.pins, i4.pins] == [DefaultPins, DefaultPins, DefaultPins, DefaultPins]
    ensures [i1.generation, i2.generation, i3.generation, i4.generation] == [0, 0, 0, 0]
  {
    i1 := NewIo(Names[12 + k]);
    i2 := NewIo(Names[13 + k]);
    i3 := NewIo(Names[14 + k]);
    i4 := NewIo(Names[15 + k]);
  }

  /** The eight `IOConfig` modules as `register_modules` creates them. */
  method NewIos() returns (i1: I.IoConfig, i2: I.IoConfig, i3: I.IoConfig, i4: I.IoConfig,
                           i5: I.IoConfig, i6: I.IoConfig, i7: I.IoConfig, i8: I.IoConfig)
    ensures fresh(i1) && fresh(i2) && fresh(i3) && fresh(i4) && fresh(i5) && fresh(i6) && fresh(i7) && fresh(i8)
    ensures Distinct8(i1, i2, i3, i4, i5, i6, i7, i8)
    ensures i1.name == Names[12] && i2.name == Names[13] && i3.name == Names[14] && i4.name == Names[15]
    ensures i5.name == Names[16] && i6.name == Names[17] && i7.name == Names[18] && i8.name == Names[19]
    ensures [i1.pins, i2.pins, i3.pins, i4.pins, i5.pins, i6.pins, i7.pins, i8.pins]
      == [DefaultPins, DefaultPins, DefaultPins, DefaultPins, DefaultPins, DefaultPins, DefaultPins, DefaultPins]
    ensures [i1.generation, i2.generation, i3.generation, i4.generation,
             i5.generation, i6.generation, i7.generation, i8.generation] == [0, 0, 0, 0, 0, 0, 0, 0]
  {
    i1, i2, i3, i4 := NewIoQuad(0);
    i5, i6, i7, i8 := NewIoQuad(4);
  }

  /** An `IOConfig` as `register_modules` creates it. */
  method NewIo(name: CString) returns (io: I.IoConfig)
    ensures fresh(io)
    ensures io.name == name && io.generation == 0 && io.pins == DefaultPins
  {
    io := new I.IoConfig(Some(name));
    assert io.pins == DefaultPins;
  }

  /** Every generation of a fresh registry is 0. */
  lemma InitialGens(h: seq<u32>, l: seq<u32>, a: seq<u32>, mo: seq<u32>, io: seq<u32>)
    requires h == [0, 0, 0] && l == [0, 0, 0, 0] && a == [0, 0, 0, 0] && mo == [0]
    requires io == [0, 0, 0, 0, 0, 0, 0, 0]
    ensures h + l + a + mo + io == seq(ModuleCount, _ => 0)
  {
  }

  const DefaultChannels: seq<A.Channel> := [A.DefaultChannel, A.DefaultChannel, A.DefaultChannel, A.DefaultChannel]

  const DefaultPins: seq<I.Pin> := [I.DefaultPin, I.DefaultPin, I.DefaultPin, I.DefaultPin,
                                    I.DefaultPin, I.DefaultPin, I.DefaultPin, I.DefaultPin]

  /** The configuration of a freshly registered set of modules. */
  function Initial(): (c: Config)
    ensures Shaped(c)
  {
    Config(W.Defaults, [L.Defaults, L.Defaults, L.Defaults, L.Defaults],
           [DefaultChannels, DefaultChannels, DefaultChannels, DefaultChannels],
           [DefaultPins, DefaultPins, DefaultPins, DefaultPins, DefaultPins, DefaultPins, DefaultPins, DefaultPins],
           seq(ModuleCount, _ => 0))
  }

  /** The positions below `n` of the strips with a data GPIO, in order. */
  function ActiveIndices(leds: seq<L.LedSettings>, n: nat): (r: seq<nat>)
    requires n <= |leds|
    ensures forall k :: 0 <= k < |r| ==> r[k] < n
  {
    if n == 0 then []
    else ActiveIndices(leds, n - 1) + (if leds[n - 1].dataGpioSet then [n - 1] else [])
  }

  /** A strip is listed iff it has a data GPIO. */
  lemma {:induction false} ActiveIndicesExact(leds: seq<L.LedSettings>, n: nat, j: nat)
    requires j < n <= |leds|
    ensures j in ActiveIndices(leds, n) <==> leds[j].dataGpioSet
  {
    if j < n - 1 {
      ActiveIndicesExact(leds, n - 1, j);
    }
  }

  /** The strips are listed in increasing order. */
  lemma {:induction false} ActiveIndicesOrdered(leds: seq<L.LedSettings>, n: nat)
    requires n <= |leds|
    ensures forall a, b :: 0 <= a < b < |ActiveIndices(leds, n)| ==> ActiveIndices(leds, n)[a] < ActiveIndices(leds, n)[b]
  {
    if n > 0 {
      var p := ActiveIndices(leds, n - 1);
      ActiveIndicesOrdered(leds, n - 1);
      var tail := if leds[n - 1].dataGpioSet then [n - 1] else [];
      assert ActiveIndices(leds, n) == p + tail;
      forall a, b | 0 <= a < b < |p + tail|
        ensures (p + tail)[a] < (p + tail)[b]
      {
        if |p| <= b {
          assert (p + tail)[b] == n - 1 && (p + tail)[a] == p[a];
        } else {
          assert (p + tail)[a] == p[a] && (p + tail)[b] == p[b];
        }
      }
    }
  }

  /** `r` lists the objects of `objs` at the positions `idx`. */
  predicate Lists(r: seq<L.LedConfig>, objs: seq<L.LedConfig>, idx: seq<nat>) {
    |r| == |idx| && forall k :: 0 <= k < |r| ==> idx[k] < |objs| && r[k] == objs[idx[k]]
  }

  /** Looking at strip `n` extends the list by that strip iff it has a data GPIO. */
  lemma ListsStep(r: seq<L.LedConfig>, objs: seq<L.LedConfig>, leds: seq<L.LedSettings>, n: nat,
                  next: seq<L.LedConfig>)
    requires n < |leds| == |objs|
    requires Lists(r, objs, ActiveIndices(leds, n))
    requires next == r + (if leds[n].dataGpioSet then [objs[n]] else [])
    ensures Lists(next, objs, ActiveIndices(leds, n + 1))
  {
  }
}
