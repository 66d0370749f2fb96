/** The network log sink of the room sensor firmware
  * (roomsensor/src/main/netlog.cpp). Every line the ESP-IDF logger prints
  * passes through a `vprintf` hook; the hook recovers the level letter and
  * the tag from the printed prefix (`parse_tag_level`), drops lines above
  * the configured network level, trims the trailing newline and queues the
  * line for a task that publishes it on `sensor/<mac>/logs/<level>`.
  *
  * The pointer walk of `parse_tag_level` is the method `ParseTagLevel`,
  * proved against the functions `LineLevel` and `LineTag`; the hook, its
  * bounded queue, its drop counter and one round of the publishing task are
  * the class `Sink`. */
module NetLog {
  import opened CTypes
  import opened CStr

  // ---------------------------------------------------------------- levels

  /** `esp_log_level_t`. */
  datatype Level = NoLog | Error | Warn | Info | Debug | Verbose

  /** The numeric value of a level (`ESP_LOG_NONE` is 0, `ESP_LOG_VERBOSE` 5). */
  function Rank(l: Level): (n: nat)
    ensures n <= 5
    ensures n == 0 <==> l == NoLog
  {
    match l
    case NoLog => 0
    case Error => 1
    case Warn => 2
    case Info => 3
    case Debug => 4
    case Verbose => 5
  }

  /** Levels are ordered by their values: the rank determines the level. */
  lemma RankInjective(a: Level, b: Level)
    requires Rank(a) == Rank(b)
    ensures a == b
  {
  }

  /** `level_to_str`: the last segment of the log topic. */
  function LevelName(l: Level): (s: CString)
    ensures 4 <= |s| <= 7
  {
    match l
    case NoLog => "none"
    case Error => "error"
    case Warn => "warn"
    case Info => "info"
    case Debug => "debug"
    case Verbose => "verbose"
  }

  /** Different levels are published on different topics. */
  lemma {:induction false} LevelNameInjective(a: Level, b: Level)
    requires LevelName(a) == LevelName(b)
    ensures a == b
  {
    assert LevelName(a)[0] == LevelName(b)[0];
    assert |LevelName(a)| == |LevelName(b)|;
  }

  /** The level a log letter announces; any other character leaves the
    * default, INFO. */
  function LetterLevel(c: char): (l: Level)
    ensures l != NoLog
    ensures c == 'E' <==> l == Error
    ensures c == 'W' <==> l == Warn
    ensures c == 'D' <==> l == Debug
    ensures c == 'V' <==> l == Verbose
  {
    match c
    case 'E' => Error
    case 'W' => Warn
    case 'I' => Info
    case 'D' => Debug
    case 'V' => Verbose
    case _ => Info
  }

  /** The letter ESP-IDF prints for a level is the initial of its topic name. */
  lemma LetterNamesLevel(c: char)
    requires c in "EWIDV"
    ensures LevelName(LetterLevel(c))[0] == Lower(c)
  {
    assert c == 'E' || c == 'W' || c == 'I' || c == 'D' || c == 'V';
  }

  // ---------------------------------------------------------------- parsing

  const Esc: char := '\U{1B}'

  /** `strchr(s + from, c)` for a character other than NUL, as an index into
    * `s`, or `None` for NULL. */
  function Find(s: CString, from: nat, c: char): (r: Option<nat>)
    requires from <= |s|
    ensures r.Some? ==> from <= r.value < |s| && s[r.value] == c
    ensures r.Some? ==> forall i :: from <= i < r.value ==> s[i] != c
    ensures r.None? ==> forall i :: from <= i < |s| ==> s[i] != c
    decreases |s| - from
  {
    if from == |s| then None
    else if s[from] == c then Some(from)
    else Find(s, from + 1, c)
  }

  /** Where reading resumes after the colour escapes at `p`: an ESC skips
    * through the next 'm', and an ESC with no 'm' after it ends the skipping. */
  function SkipColours(s: CString, p: nat): (q: nat)
    requires p <= |s|
    ensures p <= q <= |s|
    ensures q < |s| && s[q] == Esc ==> Find(s, q, 'm').None?
    decreases |s| - p
  {
    if p < |s| && s[p] == Esc then
      match Find(s, p, 'm')
      case None => p
      case Some(m) => SkipColours(s, m + 1)
    else p
  }

  /** The end of the run of spaces starting at `p`. */
  function SpaceEnd(s: CString, p: nat): (q: nat)
    requires p <= |s|
    ensures p <= q <= |s| && (q < |s| ==> s[q] != ' ')
    ensures forall i :: p <= i < q ==> s[i] == ' '
    decreases |s| - p
  {
    if p < |s| && s[p] == ' ' then SpaceEnd(s, p + 1) else p
  }

  /** The level `parse_tag_level` reports: the letter after the colour
    * escapes, INFO when there is no line or no such letter. */
  function LineLevel(line: Option<CString>): (l: Level)
    ensures line.None? ==> l == Info
    ensures l != NoLog
  {
    match line
    case None => Info
    case Some(s) =>
      var p := SkipColours(s, 0);
      if p < |s| then LetterLevel(s[p]) else Info
  }

  /** The tag's start and end in a line, when it has one: it starts after
    * the spaces that follow the first ')' past the colour escapes, and ends
    * at the next ':'. */
  function TagSpan(s: CString): (r: Option<(nat, nat)>)
    ensures r.Some? ==> r.value.0 <= r.value.1 < |s| && s[r.value.1] == ':'
    ensures r.Some? ==> s[r.value.0] != ' '
    ensures r.Some? ==> forall i :: r.value.0 <= i < r.value.1 ==> s[i] != ':'
  {
    var p := SkipColours(s, 0);
    match Find(s, p, ')')
    case None => None
    case Some(rp) =>
      match Find(s, rp, ' ')
      case None => None
      case Some(sp) =>
        var t := SpaceEnd(s, sp + 1);
        match Find(s, t, ':')
        case None => None
        case Some(c) => Some((t, c))
  }

  /** The tag `parse_tag_level` leaves in a `cap`-byte buffer: empty when the
    * line has no `) TAG:` shape, otherwise the tag cut to `cap - 1`
    * characters. */
  function LineTag(line: Option<CString>, cap: nat): (t: CString)
    requires cap >= 1
    ensures |t| < cap
    ensures line.None? || TagSpan(line.value).None? ==> t == ""
  {
    match line
    case None => ""
    case Some(s) =>
      match TagSpan(s)
      case None => ""
      case Some(span) => Fit(s[span.0..span.1], cap)
  }

  /** A recovered tag is a piece of the line after a ')': it neither starts
    * with a space nor holds a ':', and a tag that fits is recovered whole. */
  lemma LineTagShape(s: CString, cap: nat)
    requires cap >= 1 && TagSpan(s).Some?
    ensures var t := LineTag(Some(s), cap);
            var (a, b) := TagSpan(s).value;
            t <= s[a..b] && ':' !in t && (|t| > 0 ==> t[0] == s[a] != ' ') &&
            (b - a < cap ==> t == s[a..b])
  {
    var (a, b) := TagSpan(s).value;
    var raw := s[a..b];
    assert forall i :: 0 <= i < |raw| ==> raw[i] == s[a + i];
  }

  /** Writes the first `n` characters of `src` and a terminator into `dst`,
    * leaving the rest of `dst` as it was (`memcpy` then `dst[n] = '\0'`). */
  method CopyText(dst: array<char>, src: seq<char>, n: nat)
    requires n <= |src| && n < dst.Length
    modifies dst
    ensures forall i :: 0 <= i < n ==> dst[i] == src[i]
    ensures dst[n] == '\0'
    ensures forall i :: n < i < dst.Length ==> dst[i] == old(dst[i])
  {
    var i := 0;
    while i < n
      invariant i <= n
      invariant forall k :: 0 <= k < i ==> dst[k] == src[k]
      invariant forall k :: i <= k < dst.Length ==> dst[k] == old(dst[k])
    {
      dst[i] := src[i];
      i := i + 1;
    }
    dst[n] := '\0';
  }

  /** A buffer whose first `|t|` characters are `t` and then a terminator
    * holds `t`. */
  lemma HoldsText(buf: seq<char>, t: CString)
    requires |t| < |buf| && buf[|t|] == '\0'
    requires forall i :: 0 <= i < |t| ==> buf[i] == t[i]
    ensures CText(buf) == t
  {
    assert buf[..|t|] == t;
    CTextAt(buf, |t|);
  }

  /** `parse_tag_level(line, outTag, outTagLen, &level)`. A NULL `out_level`
    * is the caller ignoring the returned level. */
  method ParseTagLevel(line: Option<CString>, outTag: array?<char>, outTagLen: nat)
    returns (level: Level)
    requires outTag != null ==> outTagLen <= outTag.Length
    modifies outTag
    ensures level == LineLevel(line)
    ensures outTag != null && outTagLen == 0 ==> unchanged(outTag)
    ensures outTag != null && outTagLen > 0 ==>
              var t := LineTag(line, outTagLen);
              CText(outTag[..]) == t &&
              (forall i :: |t| < i < outTag.Length ==> outTag[i] == old(outTag[i]))
  {
    level := Info;
    if outTag != null && outTagLen > 0 {
      outTag[0] := '\0';
      HoldsText(outTag[..], "");
    }
    if line.None? {
      return;
    }
    var span;
    level, span := WalkPrefix(line.value);
    if span.None? {
      return;
    }
    var (a, b) := span.value;
    var tagLen := b - a;
    if tagLen >= outTagLen {
      tagLen := outTagLen - 1;
    }
    if outTag != null && outTagLen > 0 {
      WriteTag(outTag, line.value, a, b, tagLen, outTagLen);
    }
  }

  /** The pointer walk of `parse_tag_level` over a line: past the colour
    * escapes to the level letter, then to ')', the space after it, the end
    * of the spaces and the ':' that ends the tag. */
  method WalkPrefix(s: CString) returns (level: Level, span: Option<(nat, nat)>)
    ensures level == LineLevel(Some(s))
    ensures span == TagSpan(s)
  {
    level := Info;
    var p := 0;
    while p < |s| && s[p] == Esc
      invariant p <= |s|
      invariant SkipColours(s, p) == SkipColours(s, 0)
      decreases |s| - p
    {
      var m := Find(s, p, 'm');
      if m.None? {
        break;
      }
      p := m.value + 1;
    }
    assert p == SkipColours(s, 0);
    if p < |s| {
      level := LetterLevel(s[p]);
    }
    span := None;
    var rp := Find(s, p, ')');
    if rp.None? {
      return;
    }
    var sp := Find(s, rp.value, ' ');
    if sp.None? {
      return;
    }
    var t := sp.value;
    while t < |s| && s[t] == ' '
      invariant sp.value <= t <= |s|
      invariant t > sp.value ==> SpaceEnd(s, t) == SpaceEnd(s, sp.value + 1)
      decreases |s| - t
    {
      t := t + 1;
    }
    var colon := Find(s, t, ':');
    if colon.None? {
      return;
    }
    span := Some((t, colon.value));
  }

  /** The `memcpy` of the tag and its terminator. */
  method WriteTag(outTag: array<char>, s: CString, a: nat, b: nat, tagLen: int, cap: nat)
    requires TagSpan(s) == Some((a, b))
    requires 1 <= cap <= outTag.Length
    requires tagLen == if b - a >= cap then cap - 1 else b - a
    modifies outTag
    ensures CText(outTag[..]) == LineTag(Some(s), cap)
    ensures forall i :: tagLen < i < outTag.Length ==> outTag[i] == old(outTag[i])
  {
    var tag := LineTag(Some(s), cap);
    assert tag == Fit(s[a..b], cap);
    assert |tag| == tagLen;
    CopyText(outTag, s[a..], tagLen);
    assert forall i :: 0 <= i < tagLen ==> outTag[i] == tag[i];
    HoldsText(outTag[..], tag);
  }

  // ---------------------------------------------------------------- ESP-IDF lines

  /** A colour escape as ESP-IDF prints it (`ESC [ 0 ; 3 1 m`): an ESC, and no
    * 'm' before the final one. */
  predicate ColourCode(c: CString) {
    |c| >= 2 && c[0] == Esc && c[|c| - 1] == 'm' && 'm' !in c[..|c| - 1]
  }

  /** The line the ESP-IDF logger prints: an optional colour escape, the
    * level letter, the timestamp in parentheses, the tag, a colon and the
    * message. */
  function LogLine(colour: CString, letter: char, time: CString, tag: CString, msg: CString): (line: CString)
    requires letter != '\0'
    ensures |line| == |colour| + |time| + |tag| + |msg| + 7
  {
    colour + [letter] + " (" + time + ") " + tag + ": " + msg
  }

  /** The parse recovers the letter's level and the tag (cut to the buffer)
    * from every line the logger prints, with or without colour. */
  lemma ParseLogLine(colour: CString, letter: char, time: CString, tag: CString, msg: CString, cap: nat)
    requires colour == [] || ColourCode(colour)
    requires letter in "EWIDV"
    requires ')' !in time && ':' !in tag && (|tag| > 0 ==> tag[0] != ' ')
    requires cap >= 1
    ensures LineLevel(Some(LogLine(colour, letter, time, tag, msg))) == LetterLevel(letter)
    ensures LineTag(Some(LogLine(colour, letter, time, tag, msg)), cap) == Fit(tag, cap)
  {
    var s := LogLine(colour, letter, time, tag, msg);
    var a: nat := |colour| + |time| + 5;
    var b: nat := a + |tag|;
    LogLineSpan(colour, letter, time, tag, msg);
    ParseSpanned(s, |colour|, a, b, cap);
  }

  /** The level and tag of a line whose walk and span are known. */
  lemma ParseSpanned(s: CString, c: nat, a: nat, b: nat, cap: nat)
    requires cap >= 1 && c < |s| && SkipColours(s, 0) == c
    requires TagSpan(s) == Some((a, b))
    ensures LineLevel(Some(s)) == LetterLevel(s[c])
    ensures LineTag(Some(s), cap) == Fit(s[a..b], cap)
  {
    LineTagOfSpan(s, cap);
  }

  /** The walk over a printed line stops at the letter, and the tag span
    * covers exactly the tag. */
  lemma LogLineSpan(colour: CString, letter: char, time: CString, tag: CString, msg: CString)
    requires colour == [] || ColourCode(colour)
    requires letter in "EWIDV"
    requires ')' !in time && ':' !in tag && (|tag| > 0 ==> tag[0] != ' ')
    ensures var s := LogLine(colour, letter, time, tag, msg);
            var a := |colour| + |time| + 5;
            SkipColours(s, 0) == |colour| && s[|colour|] == letter &&
            TagSpan(s) == Some((a, a + |tag|)) && s[a..a + |tag|] == tag
  {
    var s := LogLine(colour, letter, time, tag, msg);
    LogLineAt(colour, letter, time, tag, msg);
    SkipColourCode(s, colour);
    LogLineTagSpan(s, colour, time, tag);
  }

  /** The span of the tag in a printed line. */
  lemma LogLineTagSpan(s: CString, colour: CString, time: CString, tag: CString)
    requires |colour| + |time| + |tag| + 5 < |s|
    requires SkipColours(s, 0) == |colour|
    requires ')' !in time && ':' !in tag && (|tag| > 0 ==> tag[0] != ' ')
    requires var c := |colour|;
             var rp := c + 3 + |time|;
             s[c] != ')' && s[c + 1] == ' ' && s[c + 2] == '(' &&
             (forall i :: 0 <= i < |time| ==> s[c + 3 + i] == time[i]) &&
             s[rp] == ')' && s[rp + 1] == ' ' &&
             (forall i :: 0 <= i < |tag| ==> s[rp + 2 + i] == tag[i]) &&
             s[rp + 2 + |tag|] == ':'
    ensures var a := |colour| + |time| + 5;
            TagSpan(s) == Some((a, a + |tag|)) && s[a..a + |tag|] == tag
  {
    var c: nat := |colour|;
    var rp: nat := c + 3 + |time|;
    var a: nat := rp + 2;
    var b: nat := a + |tag|;
    assert forall i :: c <= i < rp ==> s[i] != ')' by {
      forall i | c <= i < rp
        ensures s[i] != ')'
      {
        if i >= c + 3 {
          assert s[i] == time[i - c - 3];
        }
      }
    }
    assert forall i :: a <= i < b ==> s[i] != ':' by {
      forall i | a <= i < b
        ensures s[i] != ':'
      {
        assert s[i] == tag[i - a];
      }
    }
    TagSpanAt(s, c, rp, b);
    assert s[a..b] == tag;
  }

  /** The tag is read from its span. */
  lemma LineTagOfSpan(s: CString, cap: nat)
    requires cap >= 1 && TagSpan(s).Some?
    ensures LineTag(Some(s), cap) == Fit(s[TagSpan(s).value.0..TagSpan(s).value.1], cap)
  {
  }

  /** Where the pieces of a printed line sit. */
  lemma LogLineAt(colour: CString, letter: char, time: CString, tag: CString, msg: CString)
    requires letter != '\0'
    ensures var s := LogLine(colour, letter, time, tag, msg);
            var c := |colour|;
            var rp := c + 3 + |time|;
            (forall i :: 0 <= i < c ==> s[i] == colour[i]) &&
            s[c] == letter && s[c + 1] == ' ' && s[c + 2] == '(' &&
            (forall i :: 0 <= i < |time| ==> s[c + 3 + i] == time[i]) &&
            s[rp] == ')' && s[rp + 1] == ' ' &&
            (forall i :: 0 <= i < |tag| ==> s[rp + 2 + i] == tag[i]) &&
            s[rp + 2 + |tag|] == ':' &&
            s[..c] == colour
  {
  }

  /** `strchr` stops at the first occurrence. */
  lemma FindAt(s: CString, from: nat, c: char, k: nat)
    requires from <= k < |s| && s[k] == c
    requires forall i :: from <= i < k ==> s[i] != c
    ensures Find(s, from, c) == Some(k)
  {
  }

  /** The tag span of a line shaped `... ) TAG:` past its colour escapes. */
  lemma TagSpanAt(s: CString, p: nat, rp: nat, b: nat)
    requires SkipColours(s, 0) == p
    requires p <= rp && rp + 2 <= b < |s|
    requires s[rp] == ')' && forall i :: p <= i < rp ==> s[i] != ')'
    requires s[rp + 1] == ' ' && s[rp + 2] != ' '
    requires s[b] == ':' && forall i :: rp + 2 <= i < b ==> s[i] != ':'
    ensures TagSpan(s) == Some((rp + 2, b))
  {
    FindAt(s, p, ')', rp);
    FindAt(s, rp, ' ', rp + 1);
    assert SpaceEnd(s, rp + 2) == rp + 2;
    FindAt(s, rp + 2, ':', b);
  }

  /** Skipping colours at the start of a printed line stops at the letter. */
  lemma SkipColourCode(s: CString, colour: CString)
    requires colour == [] || ColourCode(colour)
    requires |colour| < |s| && s[..|colour|] == colour && s[|colour|] != Esc
    ensures SkipColours(s, 0) == |colour|
  {
    var c := |colour|;
    if c > 0 {
      assert s[0] == Esc;
      assert forall i :: 0 <= i < c - 1 ==> s[i] == colour[..c - 1][i];
      assert Find(s, 0, 'm') == Some(c - 1);
    }
  }

  // ---------------------------------------------------------------- the hook

  /** The depth of the log queue and the sizes of the hook's buffers. */
  const QueueLength := 64
  const LineSize := 160
  const TagSize := 16
  const MsgSize := 192

  /** `netlog_item_t`: the level, the tag and the message text. */
  datatype Item = Item(level: Level, tag: CString, msg: CString)

  /** The text without its trailing run of `\r` and `\n`. */
  function TrimNewlines(s: CString): (r: CString)
    ensures r <= s
    ensures |r| > 0 ==> s[|r| - 1] != '\n' && s[|r| - 1] != '\r'
    ensures forall i :: |r| <= i < |s| ==> s[i] == '\n' || s[i] == '\r'
    decreases |s|
  {
    if |s| > 0 && (s[|s| - 1] == '\n' || s[|s| - 1] == '\r') then TrimNewlines(s[..|s| - 1]) else s
  }

  /** The item the hook queues for the formatted text of one log call: the
    * text is cut to the 160-byte line buffer, parsed for level and tag, and
    * stripped of its trailing newlines. */
  function LogItem(text: CString): (it: Item)
    ensures |it.tag| < TagSize && |it.msg| < LineSize
  {
    var line := Fit(text, LineSize);
    Item(LineLevel(Some(line)), LineTag(Some(line), TagSize), LogMsg(text))
  }

  /** The message part of the item: the start of the formatted text, up to
    * the 159 characters the line buffer keeps, less the newlines that end
    * it (the 192-byte message buffer never cuts it further). */
  function LogMsg(text: CString): (m: CString)
    ensures |m| < LineSize && m <= text
    ensures |m| > 0 ==> text[|m| - 1] != '\n' && text[|m| - 1] != '\r'
    ensures forall i :: |m| <= i < |text| && i < LineSize - 1 ==> text[i] == '\n' || text[i] == '\r'
  {
    Fit(TrimNewlines(Fit(text, LineSize)), MsgSize)
  }

  /** A short printed line reaches the queue as its level, its tag and its
    * text without the newline. */
  lemma LogItemOfLogLine(colour: CString, letter: char, time: CString, tag: CString, msg: CString)
    requires colour == [] || ColourCode(colour)
    requires letter in "EWIDV"
    requires ')' !in time && ':' !in tag && (|tag| > 0 ==> tag[0] != ' ')
    requires msg != [] && msg[|msg| - 1] != '\n' && msg[|msg| - 1] != '\r'
    requires |LogLine(colour, letter, time, tag, msg)| < LineSize - 1
    ensures LogItem(LogLine(colour, letter, time, tag, msg) + "\n") ==
            Item(LetterLevel(letter), Fit(tag, TagSize), LogLine(colour, letter, time, tag, msg))
  {
    var line := LogLine(colour, letter, time, tag, msg);
    var text := LogLine(colour, letter, time, tag, msg + "\n");
    assert text == line + "\n";
    assert line[|line| - 1] == msg[|msg| - 1];
    TrimOneNewline(line);
    assert LogMsg(text) == line;
    ParseLogLine(colour, letter, time, tag, msg + "\n", TagSize);
  }

  /** One newline after a line that does not end in one is trimmed alone. */
  lemma TrimOneNewline(line: CString)
    requires line != [] && line[|line| - 1] != '\n' && line[|line| - 1] != '\r'
    ensures TrimNewlines(line + "\n") == line
  {
    assert (line + "\n")[..|line|] == line;
  }

  // ---------------------------------------------------------------- publishing

  /** One publication: topic and payload. */
  datatype Message = Message(topic: CString, payload: CString)

  const TopicSize := 96
  const NoticeSize := 128
  const TopicHead: CString := "sensor/"
  const LogsSegment: CString := "/logs/"

  /** `%02x` of each byte of the station MAC address. */
  function MacHex(mac: seq<u8>): (s: CString)
    ensures |s| == 2 * |mac|
  {
    if mac == [] then [] else [HexChar(mac[0] / 16), HexChar(mac[0] % 16)] + MacHex(mac[1..])
  }

  /** The address reads back from its text, byte by byte. */
  lemma {:induction false} MacHexAt(mac: seq<u8>, i: nat)
    requires i < |mac|
    ensures var s := MacHex(mac);
            IsHexDigit(s[2 * i]) && IsHexDigit(s[2 * i + 1]) &&
            HexValue(s[2 * i]) * 16 + HexValue(s[2 * i + 1]) == mac[i]
  {
    if i > 0 {
      MacHexAt(mac[1..], i - 1);
      assert MacHex(mac)[2..] == MacHex(mac[1..]);
    }
  }

  /** `sensor/<mac>/logs/<level>`. */
  function LogTopic(mac: seq<u8>, l: Level): (t: CString)
    requires |mac| == 6
    ensures |t| == 25 + |LevelName(l)| && |t| < TopicSize
    ensures t[..7] == TopicHead && t[19..25] == LogsSegment
  {
    TopicHead + MacHex(mac) + LogsSegment + LevelName(l)
  }

  /** The topic's MAC and level segments. */
  lemma LogTopicParts(mac: seq<u8>, l: Level)
    requires |mac| == 6
    ensures LogTopic(mac, l)[7..19] == MacHex(mac) && LogTopic(mac, l)[25..] == LevelName(l)
  {
  }

  /** Different addresses print differently. */
  lemma MacHexInjective(m1: seq<u8>, m2: seq<u8>)
    requires |m1| == |m2| && MacHex(m1) == MacHex(m2)
    ensures m1 == m2
  {
    forall i | 0 <= i < |m1|
      ensures m1[i] == m2[i]
    {
      MacHexAt(m1, i);
      MacHexAt(m2, i);
    }
  }

  /** Each level of each device has its own topic. */
  lemma LogTopicInjective(m1: seq<u8>, a: Level, m2: seq<u8>, b: Level)
    requires |m1| == 6 && |m2| == 6
    requires LogTopic(m1, a) == LogTopic(m2, b)
    ensures a == b && m1 == m2
  {
    LogTopicParts(m1, a);
    LogTopicParts(m2, b);
    LevelNameInjective(a, b);
    MacHexInjective(m1, m2);
  }

  const NoticeHead: CString := "[netlog] dropped "
  const NoticeTail: CString := " log lines due to backpressure"

  /** The summary published before a line when lines were dropped. */
  function DroppedNotice(n: nat): (s: CString)
  {
    assert forall i :: 0 <= i < |NatString(n)| ==> IsDigit(NatString(n)[i]);
    NoticeHead + NatString(n) + NoticeTail
  }

  function Pow10(k: nat): (p: nat)
    ensures p >= 1
  {
    if k == 0 then 1 else 10 * Pow10(k - 1)
  }

  /** A number below `10^k` has at most `k` digits. */
  lemma {:induction false} NatStringDigits(n: nat, k: nat)
    requires k >= 1 && n < Pow10(k)
    ensures |NatString(n)| <= k
    decreases k
  {
    if n >= 10 {
      assert n / 10 < Pow10(k - 1);
      NatStringDigits(n / 10, k - 1);
    }
  }

  /** The notice for any 32-bit count fits its 128-byte buffer, and the
    * count reads back from it. */
  lemma DroppedNoticeCount(n: u32)
    ensures |DroppedNotice(n)| < NoticeSize
    ensures var d := NatString(n);
            DroppedNotice(n)[|NoticeHead|..|NoticeHead| + |d|] == d && DigitsValue(d) == n
  {
    assert Pow10(10) == 10000000000;
    NatStringDigits(n, 10);
    NatStringValue(n);
  }

  /** The hook's copy of the message: the length walks back over the
    * trailing newlines, then at most 191 characters are copied into the
    * 192-byte message buffer and terminated. */
  method CopyMessage(line: CString) returns (m: CString)
    requires |line| < LineSize
    ensures m == Fit(TrimNewlines(line), MsgSize)
  {
    var len: nat := |line|;
    assert line[..len] == line;
    while len > 0 && (line[len - 1] == '\n' || line[len - 1] == '\r')
      invariant len <= |line|
      invariant TrimNewlines(line[..len]) == TrimNewlines(line)
    {
      assert line[..len][..len - 1] == line[..len - 1];
      len := len - 1;
    }
    assert TrimNewlines(line[..len]) == line[..len];
    var copyLen: nat := Min(len, MsgSize - 1);
    FitTrimmed(line, len);
    var buf := new char[MsgSize];
    CopyText(buf, line, copyLen);
    HoldsText(buf[..], line[..copyLen]);
    m := CText(buf[..]);
  }

  /** The message is the trimmed line cut to the message buffer. */
  lemma FitTrimmed(line: CString, len: nat)
    requires len <= |line| && TrimNewlines(line) == line[..len]
    ensures Fit(TrimNewlines(line), MsgSize) == line[..Min(len, MsgSize - 1)]
  {
  }

  /** The sink's state: the queue (absent until created), the publishing
    * task, the installed hook, the recursion guard and the count of lines
    * dropped because the queue was full. */
  class Sink {
    var queue: Option<seq<Item>>
    var task: bool
    var hooked: bool
    var enabled: bool
    var publishing: bool
    var dropped: u32

    ghost predicate Valid()
      reads this
    {
      queue.Some? ==> |queue.value| <= QueueLength
    }

    constructor ()
      ensures Valid()
      ensures queue.None? && !task && !hooked && enabled && !publishing && dropped == 0
    {
      queue := None;
      task := false;
      hooked := false;
      enabled := true;
      publishing := false;
      dropped := 0;
    }

    /** `netlog_init_early`: creates what is missing (queue, then task) and
      * installs the hook once. `queueOk` and `taskOk` are whether the
      * FreeRTOS creations succeed. */
    method InitEarly(queueOk: bool, taskOk: bool) returns (err: EspErr)
      requires Valid()
      modifies this
      ensures Valid()
      ensures enabled == old(enabled) && publishing == old(publishing) && dropped == old(dropped)
      ensures old(queue).None? && !queueOk ==>
                err == NO_MEM && queue.None? && task == old(task) && hooked == old(hooked)
      ensures old(queue).Some? || queueOk ==>
                queue == (if old(queue).Some? then old(queue) else Some([]))
      ensures (old(queue).Some? || queueOk) && !old(task) && !taskOk ==>
                err == FAIL && !task && hooked == old(hooked)
      ensures (old(queue).Some? || queueOk) && (old(task) || taskOk) ==>
                err == OK && task && hooked
      ensures old(queue).Some? && old(task) && old(hooked) ==> err == OK && unchanged(this)
    {
      if queue.None? {
        if !queueOk {
          return NO_MEM;
        }
        queue := Some([]);
      }
      if !task {
        if !taskOk {
          return FAIL;
        }
        task := true;
      }
      if !hooked {
        hooked := true;
      }
      err := OK;
    }

    /** `netlog_vprintf_hook` for one log call whose formatted text is
      * `text`. `prev` is what the original sink returns (None when there is
      * none), `inIsr` whether the call comes from an interrupt and
      * `netLevel` the `wifi.loglevel` setting. */
    method Hook(text: CString, prev: Option<int>, inIsr: bool, netLevel: int) returns (forwarded: int)
      requires Valid()
      modifies this`queue, this`dropped
      ensures Valid()
      ensures forwarded == if prev.Some? then prev.value else 0
      ensures !enabled || inIsr || old(queue).None? ==>
                queue == old(queue) && dropped == old(dropped)
      ensures enabled && !inIsr && old(queue).Some? && |old(queue).value| == QueueLength ==>
                queue == old(queue) && dropped == WrapU32(old(dropped) + 1)
      ensures enabled && !inIsr && old(queue).Some? && |old(queue).value| < QueueLength ==>
                dropped == old(dropped) &&
                var it := LogItem(text);
                queue == if Rank(it.level) <= netLevel && !publishing
                         then Some(old(queue).value + [it]) else old(queue)
    {
      forwarded := if prev.Some? then prev.value else 0;
      if !enabled || inIsr || queue.None? {
        return;
      }
      if |queue.value| == QueueLength {
        dropped := WrapU32(dropped + 1);
        return;
      }
      var line: CString := Fit(text, LineSize);
      var tag := new char[TagSize];
      var level := ParseTagLevel(Some(line), tag, TagSize);
      if Rank(level) > netLevel {
        return;
      }
      var msg := CopyMessage(line);
      var item := Item(level, CText(tag[..]), msg);
      assert item == LogItem(text);
      if !publishing {
        queue := Some(queue.value + [item]);
      }
    }

    /** One round of `netlog_task` once the network is up: takes the oldest
      * item and, when the MAC address is known, publishes the drop notice
      * (if lines were dropped, resetting the count) and then the line, both
      * on the line's level topic. */
    method Publish(mac: Option<seq<u8>>) returns (published: seq<Message>)
      requires Valid() && queue.Some? && |queue.value| > 0
      requires mac.Some? ==> |mac.value| == 6
      modifies this`queue, this`dropped, this`publishing
      ensures Valid()
      ensures queue == Some(old(queue).value[1..])
      ensures mac.None? ==> published == [] && dropped == old(dropped) && publishing == old(publishing)
      ensures mac.Some? ==>
                var item := old(queue).value[0];
                var topic := LogTopic(mac.value, item.level);
                dropped == 0 && !publishing &&
                published == (if old(dropped) > 0 then [Message(topic, DroppedNotice(old(dropped)))] else [])
                             + [Message(topic, item.msg)]
    {
      var item := queue.value[0];
      queue := Some(queue.value[1..]);
      published := [];
      if mac.None? {
        return;
      }
      var topic := Fit(LogTopic(mac.value, item.level), TopicSize);
      publishing := true;
      var d := dropped;
      if d > 0 {
        DroppedNoticeCount(d);
        var notice := Fit(DroppedNotice(d), NoticeSize);
        if |notice| > 0 {
          published := published + [Message(topic, notice)];
        }
        dropped := 0;
      }
      published := published + [Message(topic, item.msg)];
      publishing := false;
    }
  }
}
