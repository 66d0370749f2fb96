/** The roomsensor provisioning tool: it sends console lines to the device
  * and collects the reply until the line goes quiet, and it turns a JSON
  * configuration (namespace -> key -> value) into the `nvs_set` commands of
  * the device console.
  *
  * A JSON object is an association list in insertion order, as a Python
  * `dict` keeps it. A top-level entry is either an object of settings
  * (`Table`) or any other value (`Plain`); a setting's value is a boolean,
  * an integer, a string, or any other JSON value (`Other`), which carries the
  * text Python's `str` gives it. */
module ProgramTool {
  import opened CTypes
  import opened CStr
  import opened Terminal

  datatype Value = Bool(b: bool) | Int(i: int) | Str(s: string) | Other(text: string)
  datatype Section = Table(entries: seq<(string, Value)>) | Plain(v: Value)
  type Config = seq<(string, Section)>

  // ------------------------------------------------------ ordered dicts

  /** `d.get(k)`. */
  function Get<V>(d: seq<(string, V)>, k: string): (r: Option<V>)
    ensures r.Some? <==> exists i :: 0 <= i < |d| && d[i].0 == k
  {
    if d == [] then None else if d[0].0 == k then Some(d[0].1) else Get(d[1..], k)
  }

  /** `d[k] = v`: an existing key keeps its place, a new one goes last. */
  function Put<V>(d: seq<(string, V)>, k: string, v: V): (r: seq<(string, V)>)
    ensures Get(r, k) == Some(v)
    ensures forall k' :: k' != k ==> Get(r, k') == Get(d, k')
  {
    if d == [] then [(k, v)]
    else if d[0].0 == k then [(k, v)] + d[1..]
    else [d[0]] + Put(d[1..], k, v)
  }

  /** Keys of a Python dict are distinct. */
  predicate UniqueKeys<V>(d: seq<(string, V)>) {
    forall i, j :: 0 <= i < j < |d| ==> d[i].0 != d[j].0
  }

  /** `d.update(e)`. */
  function Update<V>(d: seq<(string, V)>, e: seq<(string, V)>): (r: seq<(string, V)>)
    decreases |e|
  {
    if e == [] then d else Update(Put(d, e[0].0, e[0].1), e[1..])
  }

  /** After `d.update(e)`, a key of `e` has its value from `e`; any other key
    * keeps its value from `d`. */
  lemma {:induction false} UpdateGet<V>(d: seq<(string, V)>, e: seq<(string, V)>, k: string)
    requires UniqueKeys(e)
    ensures Get(Update(d, e), k) == if Get(e, k).Some? then Get(e, k) else Get(d, k)
    decreases |e|
  {
    if e != [] {
      assert UniqueKeys(e[1..]) by {
        forall i, j | 0 <= i < j < |e[1..]| ensures e[1..][i].0 != e[1..][j].0 {
          assert e[i + 1].0 != e[j + 1].0;
        }
      }
      UpdateGet(Put(d, e[0].0, e[0].1), e[1..], k);
      if k == e[0].0 {
        assert Get(e[1..], k).None? by {
          forall i | 0 <= i < |e[1..]| ensures e[1..][i].0 != k {
            assert e[0].0 != e[i + 1].0;
          }
        }
      }
    }
  }

  // ------------------------------------------------------ merging configs

  /** The loop body of `_merge_configs` for one overlay entry: two objects
    * are merged key-wise with the overlay winning; anything else replaces. */
  function MergeEntry(out: Config, ns: string, kv: Section): (r: Config)
  {
    var prior: Option<Section> := Get(out, ns);
    if kv.Table? && prior.Some? && prior.value.Table? then
      Put(out, ns, Table(Update(prior.value.entries, kv.entries)))
    else Put(out, ns, kv)
  }

  /** The value a namespace ends with, from its value in the base and in the
    * overlay. */
  function MergedValue(inBase: Option<Section>, inOverlay: Option<Section>): Option<Section>
  {
    match inOverlay
    case None => inBase
    case Some(o) =>
      if o.Table? && inBase.Some? && inBase.value.Table? then
        Some(Table(Update(inBase.value.entries, o.entries)))
      else Some(o)
  }

  /** The whole merge as a fold over the overlay. */
  function Merged(out: Config, overlay: Config): (r: Config)
    decreases |overlay|
  {
    if overlay == [] then out
    else Merged(MergeEntry(out, overlay[0].0, overlay[0].1), overlay[1..])
  }

  /** `_merge_configs(base, overlay)`; `None` is a falsy overlay. The result
    * is a fresh value: `base` itself is never changed. */
  method MergeConfigs(base: Config, overlay: Option<Config>) returns (out: Config)
    ensures overlay.None? ==> out == base
    ensures overlay.Some? ==> out == Merged(base, overlay.value)
  {
    out := base;
    var items := if overlay.Some? then overlay.value else [];
    var i := 0;
    while i < |items|
      invariant 0 <= i <= |items|
      invariant Merged(out, items[i..]) == Merged(base, items)
    {
      assert items[i..][1..] == items[i + 1..];
      out := MergeEntry(out, items[i].0, items[i].1);
      i := i + 1;
    }
    assert items[i..] == [];
  }

  /** A namespace the overlay does not name keeps its base value. */
  lemma {:induction false} MergedOther(out: Config, overlay: Config, ns: string)
    requires Get(overlay, ns).None?
    ensures Get(Merged(out, overlay), ns) == Get(out, ns)
    decreases |overlay|
  {
    if overlay != [] {
      assert overlay[0].0 != ns;
      assert Get(overlay[1..], ns).None?;
      MergedOther(MergeEntry(out, overlay[0].0, overlay[0].1), overlay[1..], ns);
    }
  }

  /** What `_merge_configs` promises for every namespace: the overlay wins,
    * two objects merge key-wise, and a namespace only in the base is kept. */
  lemma {:induction false} MergedGet(base: Config, overlay: Config, ns: string)
    requires UniqueKeys(overlay)
    ensures Get(Merged(base, overlay), ns) == MergedValue(Get(base, ns), Get(overlay, ns))
    decreases |overlay|
  {
    if overlay != [] {
      var step := MergeEntry(base, overlay[0].0, overlay[0].1);
      var rest := overlay[1..];
      assert UniqueKeys(rest) by {
        forall i, j | 0 <= i < j < |rest| ensures rest[i].0 != rest[j].0 {
          assert overlay[i + 1].0 != overlay[j + 1].0;
        }
      }
      if ns == overlay[0].0 {
        assert Get(rest, ns).None? by {
          forall i | 0 <= i < |rest| ensures rest[i].0 != ns {
            assert overlay[0].0 != overlay[i + 1].0;
          }
        }
        MergedOther(step, rest, ns);
      } else {
        MergedGet(step, rest, ns);
      }
    }
  }

  // ------------------------------------------------------ values and commands

  /** Every character mapped on its own: a backslash and a double quote each
    * get a backslash in front. */
  function Escape(s: string): (r: string)
    ensures |r| >= |s|
  {
    if s == [] then []
    else (if s[0] == '\\' || s[0] == '"' then ['\\', s[0]] else [s[0]]) + Escape(s[1..])
  }

  /** `s.replace(c, rep)` for a one-character pattern. */
  function ReplaceChar(s: string, c: char, rep: string): (r: string)
  {
    if s == [] then [] else (if s[0] == c then rep else [s[0]]) + ReplaceChar(s[1..], c, rep)
  }

  /** `_escape_str_value`: backslashes first, then quotes. */
  function EscapeStr(s: string): (r: string)
  {
    ReplaceChar(ReplaceChar(s, '\\', "\\\\"), '"', "\\\"")
  }

  lemma {:induction false} ReplaceCharAppend(a: string, b: string, c: char, rep: string)
    ensures ReplaceChar(a + b, c, rep) == ReplaceChar(a, c, rep) + ReplaceChar(b, c, rep)
    decreases |a|
  {
    if a == [] {
      assert a + b == b;
    } else {
      assert (a + b)[0] == a[0] && (a + b)[1..] == a[1..] + b;
      ReplaceCharAppend(a[1..], b, c, rep);
    }
  }

  /** Because backslashes are doubled before quotes are escaped, the two
    * passes escape each character exactly once. */
  lemma {:induction false} EscapeStrIsOnePass(s: string)
    ensures EscapeStr(s) == Escape(s)
    decreases |s|
  {
    if s != [] {
      var head := if s[0] == '\\' then "\\\\" else [s[0]];
      assert ReplaceChar(s, '\\', "\\\\") == head + ReplaceChar(s[1..], '\\', "\\\\");
      ReplaceCharAppend(head, ReplaceChar(s[1..], '\\', "\\\\"), '"', "\\\"");
      assert ReplaceChar(head, '"', "\\\"") == (if s[0] == '\\' || s[0] == '"' then ['\\', s[0]] else [s[0]]) by {
        if s[0] == '\\' {
          assert ReplaceChar(head[1..], '"', "\\\"") == "\\";
        } else {
          assert ReplaceChar(head[1..], '"', "\\\"") == [];
        }
      }
      EscapeStrIsOnePass(s[1..]);
    }
  }

  /** Escaping quotes first would double the backslash it adds. */
  lemma QuotesFirstDoubleEscapes()
    ensures ReplaceChar(ReplaceChar("\"", '"', "\\\""), '\\', "\\\\") == "\\\\\""
    ensures EscapeStr("\"") == "\\\""
  {
    assert ReplaceChar("\\\"", '\\', "\\\\") == "\\\\" + ReplaceChar("\"", '\\', "\\\\");
    assert ReplaceChar("\\\\", '"', "\\\"") == "\\" + ReplaceChar("\\", '"', "\\\"");
  }

  /** The device console's reading of a quoted string: a backslash takes the
    * next character literally. */
  function Unescape(s: string): (r: string)
  {
    if s == [] then []
    else if s[0] == '\\' && |s| >= 2 then [s[1]] + Unescape(s[2..])
    else [s[0]] + Unescape(s[1..])
  }

  lemma {:induction false} UnescapeEscape(s: string)
    ensures Unescape(EscapeStr(s)) == s
    decreases |s|
  {
    EscapeStrIsOnePass(s);
    if s != [] {
      EscapeStrIsOnePass(s[1..]);
      UnescapeEscape(s[1..]);
      var e := Escape(s);
      if s[0] == '\\' || s[0] == '"' {
        assert e[2..] == Escape(s[1..]);
      } else {
        assert e[1..] == Escape(s[1..]);
      }
    }
  }

  /** The text `str(v)` gives a non-boolean, non-integer value. */
  function TextOf(v: Value): string
    requires !v.Bool? && !v.Int?
  {
    if v.Str? then v.s else v.text
  }

  /** `_infer_type_and_value`: the console type name and the value text. A
    * Python boolean is also an integer, so the boolean case is checked first. */
  function Infer(v: Value): (r: (string, string))
    ensures v.Bool? ==> r == ("u8", if v.b then "1" else "0")
    ensures v.Int? ==> r == ("i32", IntString(v.i))
    ensures !v.Bool? && !v.Int? ==> r == ("str", "\"" + EscapeStr(TextOf(v)) + "\"")
  {
    match v
    case Bool(b) => ("u8", if b then "1" else "0")
    case Int(i) => ("i32", IntString(i))
    case _ => ("str", "\"" + EscapeStr(TextOf(v)) + "\"")
  }

  /** How the console reads back a typed value; a string value comes back
    * as a string. */
  function ReadBack(t: string, text: string): (r: Option<Value>)
  {
    if t == "u8" && text == "1" then Some(Bool(true))
    else if t == "u8" && text == "0" then Some(Bool(false))
    else if t == "i32" then Some(Int(Atoi(text)))
    else if t == "str" && |text| >= 2 && text[0] == '"' && text[|text| - 1] == '"' then
      Some(Str(Unescape(text[1..|text| - 1])))
    else None
  }

  /** Every value is stored as itself, except that other JSON values are
    * stored as their text. */
  lemma InferReadsBack(v: Value)
    ensures var (t, text) := Infer(v);
      ReadBack(t, text) == Some(if v.Other? then Str(v.text) else v)
  {
    match v
    case Bool(b) =>
    case Int(i) => AtoiIntString(i);
    case _ => StrReadsBack(TextOf(v));
  }

  /** A quoted, escaped text reads back as the text. */
  lemma StrReadsBack(t: string)
    ensures ReadBack("str", "\"" + EscapeStr(t) + "\"") == Some(Str(t))
  {
    var e := EscapeStr(t);
    var text := "\"" + e + "\"";
    assert |text| >= 2 && text[0] == '"' && text[|text| - 1] == '"';
    assert text[1..|text| - 1] == e;
    UnescapeEscape(t);
  }

  function SetCommand(key: string, v: Value): (c: string)
  {
    var (t, text) := Infer(v);
    "nvs_set " + key + " " + t + " -v " + text
  }

  /** The `nvs_set` lines for the settings of one namespace, in order. */
  function SetCommands(kvs: seq<(string, Value)>): (cs: seq<string>)
    ensures |cs| == |kvs|
    ensures forall i :: 0 <= i < |kvs| ==> cs[i] == SetCommand(kvs[i].0, kvs[i].1)
  {
    if kvs == [] then [] else SetCommands(kvs[..|kvs| - 1]) + [SetCommand(kvs[|kvs| - 1].0, kvs[|kvs| - 1].1)]
  }

  /** One namespace line, then its settings; nothing for a non-object. */
  function SectionCommands(ns: string, s: Section): (cs: seq<string>)
  {
    if s.Plain? then [] else ["nvs_namespace " + ns] + SetCommands(s.entries)
  }

  function AllSections(data: Config): (cs: seq<string>)
  {
    if data == [] then [] else AllSections(data[..|data| - 1]) + SectionCommands(data[|data| - 1].0, data[|data| - 1].1)
  }

  /** The command list: quiet logging first, a restart last. */
  function Commands(data: Config): (cs: seq<string>)
  {
    [QuietLogs] + AllSections(data) + [Restart]
  }

  const QuietLogs := "log_level * none"
  const Restart := "restart"

  /** The commands for one namespace object, built line by line. */
  method TableCommands(ns: string, kvs: seq<(string, Value)>) returns (cs: seq<string>)
    ensures cs == SectionCommands(ns, Table(kvs))
  {
    cs := ["nvs_namespace " + ns];
    var j := 0;
    while j < |kvs|
      invariant 0 <= j <= |kvs|
      invariant cs == ["nvs_namespace " + ns] + SetCommands(kvs[..j])
    {
      assert kvs[..j + 1][..j] == kvs[..j];
      cs := cs + [SetCommand(kvs[j].0, kvs[j].1)];
      j := j + 1;
    }
    assert kvs[..j] == kvs;
  }

  /** `build_commands_from_dict`; `None` is a top-level value that is not an
    * object, which the tool rejects. */
  method BuildCommands(data: Option<Config>) returns (r: Option<seq<string>>)
    ensures data.None? <==> r.None?
    ensures data.Some? ==> r == Some(Commands(data.value))
  {
    if data.None? {
      return None;
    }
    var cfg := data.value;
    var body: seq<string> := [];
    var i := 0;
    while i < |cfg|
      invariant 0 <= i <= |cfg|
      invariant body == AllSections(cfg[..i])
    {
      AllSectionsSnoc(cfg, i);
      if cfg[i].1.Table? {
        var block := TableCommands(cfg[i].0, cfg[i].1.entries);
        body := body + block;
      }
      i := i + 1;
    }
    assert cfg[..i] == cfg;
    r := Some([QuietLogs] + body + [Restart]);
  }

  /** An entry adds its block just before the final restart: for an object
    * its namespace line and then its settings, for anything else nothing. */
  lemma CommandsSnoc(data: Config, ns: string, s: Section)
    ensures Commands(data + [(ns, s)]) == [QuietLogs] + AllSections(data) + SectionCommands(ns, s) + [Restart]
  {
    var d := data + [(ns, s)];
    assert d[..|d| - 1] == data && d[|d| - 1] == (ns, s);
    assert AllSections(d) == AllSections(data) + SectionCommands(ns, s);
    Regroup([QuietLogs], AllSections(data), SectionCommands(ns, s), [Restart]);
  }

  /** One more entry of the dictionary adds its section's commands. */
  lemma AllSectionsSnoc(cfg: Config, i: nat)
    requires i < |cfg|
    ensures AllSections(cfg[..i + 1]) == AllSections(cfg[..i]) + SectionCommands(cfg[i].0, cfg[i].1)
  {
    assert cfg[..i + 1][..i] == cfg[..i];
  }

  lemma Regroup<T>(a: seq<T>, b: seq<T>, c: seq<T>, d: seq<T>)
    ensures a + (b + c) + d == a + b + c + d
  {
  }

  // ------------------------------------------------------ capture

  /** One `ser.read(256)` and the clock right after it, in milliseconds. */
  datatype Read = Read(chunk: seq<bv8>, now: int)

  const IdleThresholdMs := 400
  const MaxWaitMs := 6000

  /** How many polls the capture loop takes, starting at `t0` with data last
    * seen at `last`: only a read that returns nothing can end it. */
  function Consumed(t0: int, last: int, polls: seq<Read>): (n: nat)
    ensures n <= |polls|
    decreases |polls|
  {
    if polls == [] then 0
    else if polls[0].chunk != [] then 1 + Consumed(t0, polls[0].now, polls[1..])
    else if polls[0].now - last >= IdleThresholdMs || polls[0].now - t0 >= MaxWaitMs then 1
    else 1 + Consumed(t0, last, polls[1..])
  }

  /** The bytes captured from some polls. */
  function Captured(polls: seq<Read>): (b: seq<bv8>)
  {
    if polls == [] then [] else Captured(polls[..|polls| - 1]) + StripQueries(polls[|polls| - 1].chunk)
  }

  /** The cursor reports sent while reading. */
  function Replies(polls: seq<Read>): (w: seq<seq<bv8>>)
  {
    if polls == [] then [] else Replies(polls[..|polls| - 1]) + QueryReplies(polls[|polls| - 1].chunk)
  }

  /** `send_line_and_capture`: the line goes out with CR LF, every query is
    * answered and removed, and the sanitised capture is returned. `sent` is
    * what was written to the port; write failures are ignored. */
  method SendLineAndCapture(line: string, t0: int, polls: seq<Read>) returns (text: string, sent: seq<seq<bv8>>)
    ensures var n := Consumed(t0, t0, polls);
      text == Sanitize(Decode(Captured(polls[..n]))) &&
      sent == [Encode(line + "\r\n")] + Replies(polls[..n])
  {
    sent := [Encode(line + "\r\n")];
    var last := t0;
    var buf: seq<bv8> := [];
    var i := 0;
    var stopped := false;
    while i < |polls| && !stopped
      invariant 0 <= i <= |polls|
      invariant stopped ==> Consumed(t0, t0, polls) == i
      invariant !stopped ==> Consumed(t0, t0, polls) == i + Consumed(t0, last, polls[i..])
      invariant buf == Captured(polls[..i])
      invariant sent == [Encode(line + "\r\n")] + Replies(polls[..i])
    {
      var data := polls[i].chunk;
      var now := polls[i].now;
      assert polls[..i + 1][..i] == polls[..i];
      assert polls[i..][1..] == polls[i + 1..];
      if data != [] {
        if Contains(data, CursorQuery) {
          sent := sent + [CursorReport];
          data := RemoveAll(data, CursorQuery);
        }
        buf := buf + data;
        last := now;
      } else {
        assert StripQueries(data) == [] && QueryReplies(data) == [];
        stopped := now - last >= IdleThresholdMs || now - t0 >= MaxWaitMs;
      }
      i := i + 1;
    }
    text := Sanitize(Decode(buf));
  }

  /** The six-second limit is only checked when a read returns nothing: a
    * device that keeps printing keeps the capture going. */
  lemma {:induction false} BusyCaptureReadsOn(t0: int, last: int, polls: seq<Read>)
    requires forall i :: 0 <= i < |polls| ==> polls[i].chunk != []
    ensures Consumed(t0, last, polls) == |polls|
    decreases |polls|
  {
    if polls != [] {
      BusyCaptureReadsOn(t0, polls[0].now, polls[1..]);
    }
  }
}
