/** Metric reporting: the bounded string append, the MQTT topic a metric is
  * published under, and the queue that `report_metric` feeds. */
module Metrics {
  import opened CTypes
  import opened CStr
  import opened MetricsTags

  /** The size of the topic buffer. */
  const TopicSize: nat := 512
  /** `METRICS_QUEUE_SIZE`. */
  const QueueSize: nat := 50

  const Unknown: CString := "unknown"
  const Prefix: CString := "roomsensor/"
  const Slash: CString := "/"

  // ------------------------------------------------------- safe_strcat

  /** The string a `size`-byte buffer holding `d` holds after `safe_strcat`
    * of `src`. */
  function StrcatText(d: CString, src: CString, size: nat): (r: CString)
    requires size >= 1
    ensures |d| >= size - 1 ==> r == d
    ensures |d| < size ==> r == Fit(d + src, size)
  {
    if |d| >= size - 1 then d
    else
      var k := Min(|src|, size - 1 - |d|);
      assert k < |src| ==> d + src[..k] == (d + src)[..size - 1];
      d + src[..k]
  }

  /** Room left: `k` characters of `src` are appended. */
  lemma StrcatShort(d: CString, src: CString, size: nat)
    requires 1 <= size && |d| < size - 1
    ensures StrcatText(d, src, size) == d + src[..Min(|src|, size - |d| - 1)]
  {
  }

  /** Cutting before appending and cutting once at the end agree, so a
    * chain of `safe_strcat` calls keeps the longest prefix of the whole
    * concatenation that fits. */
  lemma FitCat(a: string, b: string, n: nat)
    requires n >= 1
    ensures Fit(Fit(a, n) + b, n) == Fit(a + b, n)
  {
    if |a| >= n {
      assert (a[..n - 1] + b)[..n - 1] == (a + b)[..n - 1];
    }
  }

  /** `safe_strcat(dst, size, src)`: a NULL buffer or source, or a zero
    * size, leaves the buffer alone; so does a buffer that is already full.
    * Otherwise as much of `src` as fits behind the held string is copied,
    * followed by a terminator; the slots after it are untouched. */
  method SafeStrcat(dst: array?<char>, size: nat, src: Option<CString>)
    requires dst != null ==> size <= dst.Length && '\0' in dst[..]
    modifies dst
    ensures dst == null || src.None? || size == 0 ==> dst == null || dst[..] == old(dst[..])
    ensures dst != null && src.Some? && size > 0 ==>
      var s0 := old(dst[..]);
      var len := |CText(s0)|;
      (len >= size - 1 ==> dst[..] == s0) &&
      (len < size - 1 ==> Stored(s0, dst[..], len, src.value[..Min(|src.value|, size - 1 - len)]))
    ensures dst != null && src.Some? && size > 0 ==>
      '\0' in dst[..] && CText(dst[..]) == StrcatText(old(CText(dst[..])), src.value, size)
  {
    if dst != null && src.Some? && size > 0 {
      Append(dst, size, src.value);
    }
  }

  /** `safe_strcat` past its NULL and zero-size checks. */
  method Append(dst: array<char>, size: nat, s: CString)
    requires 0 < size <= dst.Length && '\0' in dst[..]
    modifies dst
    ensures var s0 := old(dst[..]);
      var len := |CText(s0)|;
      (len >= size - 1 ==> dst[..] == s0) &&
      (len < size - 1 ==> Stored(s0, dst[..], len, s[..Min(|s|, size - 1 - len)]))
    ensures '\0' in dst[..] && CText(dst[..]) == StrcatText(old(CText(dst[..])), s, size)
  {
    ghost var s0 := dst[..];
    var len := |CText(dst[..])|;
    assert len < |s0| by {
      assert '\0' !in CText(s0);
    }
    if len < size - 1 {
      var i := CopyInto(dst, len, s, size - len - 1);
      ghost var pre := dst[..];
      dst[len + i] := '\0';
      assert dst[..] == pre[len + i := '\0'];
      Appended(s0, pre, size, s, i);
    }
  }

  /** The copy followed by the terminator is the `safe_strcat` result. */
  lemma Appended(s0: seq<char>, pre: seq<char>, size: nat, s: CString, i: nat)
    requires size <= |s0| && |CText(s0)| < size - 1
    requires i == Min(|s|, size - |CText(s0)| - 1) && Stored'(s0, pre, |CText(s0)|, s[..i])
    ensures var buf := pre[|CText(s0)| + i := '\0'];
      && Stored(s0, buf, |CText(s0)|, s[..Min(|s|, size - 1 - |CText(s0)|)])
      && '\0' in buf && CText(buf) == StrcatText(CText(s0), s, size)
  {
    StoredText(s0, pre, |CText(s0)|, s[..i]);
    StrcatShort(CText(s0), s, size);
  }

  /** The copy loop of `safe_strcat`: characters of `s` go to `dst[at..]`
    * while fewer than `room` have been copied and `s` has not ended. */
  method CopyInto(dst: array<char>, at: nat, s: CString, room: nat) returns (i: nat)
    requires at + room <= dst.Length
    modifies dst
    ensures i == Min(room, |s|)
    ensures Stored'(old(dst[..]), dst[..], at, s[..i])
  {
    ghost var s0 := dst[..];
    i := 0;
    while i < room && i < |s|
      invariant 0 <= i <= room && i <= |s|
      invariant Stored'(s0, dst[..], at, s[..i])
    {
      dst[at + i] := s[i];
      i := i + 1;
    }
  }

  /** `buf` is `s0` with `t` and a terminator written at position `at`. */
  ghost predicate Stored(s0: seq<char>, buf: seq<char>, at: nat, t: seq<char>) {
    |buf| == |s0| && at + |t| < |s0| &&
    (forall m :: 0 <= m < at ==> buf[m] == s0[m]) &&
    (forall m :: 0 <= m < |t| ==> buf[at + m] == t[m]) &&
    buf[at + |t|] == '\0' &&
    (forall m :: at + |t| < m < |s0| ==> buf[m] == s0[m])
  }

  /** The copy loop part way: `t` written at `at`, nothing else touched. */
  ghost predicate Stored'(s0: seq<char>, buf: seq<char>, at: nat, t: seq<char>) {
    |buf| == |s0| && at + |t| <= |s0| &&
    (forall m :: 0 <= m < at ==> buf[m] == s0[m]) &&
    (forall m :: 0 <= m < |t| ==> buf[at + m] == t[m]) &&
    (forall m :: at + |t| <= m < |s0| ==> buf[m] == s0[m])
  }

  lemma StoredText(s0: seq<char>, pre: seq<char>, at: nat, t: CString)
    requires at == |CText(s0)| && at + |t| < |s0| && Stored'(s0, pre, at, t)
    ensures Stored(s0, pre[at + |t| := '\0'], at, t) && '\0' in pre[at + |t| := '\0']
    ensures CText(pre[at + |t| := '\0']) == CText(s0) + t
  {
    var p := at + |t|;
    var buf := pre[p := '\0'];
    assert buf[..p] == CText(s0) + t;
    assert '\0' !in CText(s0) + t;
    CTextAt(buf, p);
  }

  // ------------------------------------------------------- the topic

  /** The value of the last tag holding `key`, or `dflt` when none does. */
  function LastValue(ts: seq<Tag>, key: CString, dflt: CString): (r: CString)
    ensures (forall j :: 0 <= j < |ts| ==> ts[j].key != key) ==> r == dflt
    ensures r == dflt || exists j :: 0 <= j < |ts| && ts[j].key == key && r == ts[j].value
  {
    if ts == [] then dflt
    else if ts[|ts| - 1].key == key then ts[|ts| - 1].value
    else LastValue(ts[..|ts| - 1], key, dflt)
  }

  /** A later tag with the same key wins. */
  lemma {:induction false} LastValueWins(ts: seq<Tag>, key: CString, value: CString, rest: seq<Tag>, dflt: CString)
    requires forall j :: 0 <= j < |rest| ==> rest[j].key != key
    ensures LastValue(ts + [Tag(key, value)] + rest, key, dflt) == value
    decreases |rest|
  {
    if rest != [] {
      var all := ts + [Tag(key, value)] + rest;
      assert all[..|all| - 1] == ts + [Tag(key, value)] + rest[..|rest| - 1];
      LastValueWins(ts, key, value, rest[..|rest| - 1], dflt);
    } else {
      assert ts + [Tag(key, value)] + rest == ts + [Tag(key, value)];
    }
  }

  /** With distinct keys, the topic's tag lookup agrees with the
    * collection's own `Lookup`. */
  lemma {:induction false} LastValueIsLookup(ts: seq<Tag>, key: CString, dflt: CString)
    requires UniqueKeys(ts)
    ensures LastValue(ts, key, dflt) == (match Lookup(ts, key) case Some(v) => v case None => dflt)
  {
    if ts != [] && ts[|ts| - 1].key == key {
      var k := IndexOfKey(ts, key);
      assert k.Some?;
      assert k.value == |ts| - 1;
    } else if ts != [] {
      var init := ts[..|ts| - 1];
      LastValueIsLookup(init, key, dflt);
      var a, b := IndexOfKey(init, key), IndexOfKey(ts, key);
      if a.Some? {
        assert init[a.value] == ts[a.value];
        assert b.Some? && b.value == a.value;
      } else {
        assert forall j :: 0 <= j < |ts| ==> ts[j].key != key by {
          assert forall j :: 0 <= j < |ts| - 1 ==> init[j] == ts[j];
        }
      }
    }
  }

  /** The topic a metric is published under: prefix, metric name, area,
    * room and id, slash-separated, cut to the 512-byte buffer. */
  function Topic(metric: CString, area: CString, room: CString, id: CString): (t: CString)
    ensures |t| < TopicSize
    ensures |Prefix + metric + Slash + area + Slash + room + Slash + id| < TopicSize ==>
      t == Prefix + metric + Slash + area + Slash + room + Slash + id
    ensures t <= Prefix + metric + Slash + area + Slash + room + Slash + id
  {
    Fit(Prefix + metric + Slash + area + Slash + room + Slash + id, TopicSize)
  }

  /** `build_metric_topic`: NULL when the buffer cannot be allocated.
    * Missing area, room or id tags read "unknown"; of several equal keys,
    * the last one counts. */
  method BuildMetricTopic(metric: CString, tags: seq<Tag>, allocOk: bool) returns (topic: Option<CString>)
    ensures !allocOk ==> topic.None?
    ensures allocOk ==> topic == Some(Topic(metric, LastValue(tags, AreaKey, Unknown),
                                            LastValue(tags, RoomKey, Unknown), LastValue(tags, IdKey, Unknown)))
  {
    var area, room, id := TopicTags(tags);
    if !allocOk {
      return None;
    }
    var buf := new char[TopicSize];
    buf[0] := '\0';
    CTextAt(buf[..], 0);
    AppendAll(buf, [Prefix, metric, Slash, area, Slash, room, Slash, id]);
    ConcatTopic(metric, area, room, id);
    topic := Some(CText(buf[..]));
  }

  /** The tag scan of `build_metric_topic`. */
  method TopicTags(tags: seq<Tag>) returns (area: CString, room: CString, id: CString)
    ensures area == LastValue(tags, AreaKey, Unknown)
    ensures room == LastValue(tags, RoomKey, Unknown)
    ensures id == LastValue(tags, IdKey, Unknown)
  {
    area, room, id := Unknown, Unknown, Unknown;
    var i := 0;
    while i < |tags|
      invariant 0 <= i <= |tags|
      invariant area == LastValue(tags[..i], AreaKey, Unknown)
      invariant room == LastValue(tags[..i], RoomKey, Unknown)
      invariant id == LastValue(tags[..i], IdKey, Unknown)
    {
      assert tags[..i + 1][..i] == tags[..i];
      if tags[i].key == AreaKey {
        area := tags[i].value;
      } else if tags[i].key == RoomKey {
        room := tags[i].value;
      } else if tags[i].key == IdKey {
        id := tags[i].value;
      }
      i := i + 1;
    }
    assert tags[..i] == tags;
  }

  lemma ConcatTopic(metric: CString, area: CString, room: CString, id: CString)
    ensures Concat([Prefix, metric, Slash, area, Slash, room, Slash, id])
         == Prefix + metric + Slash + area + Slash + room + Slash + id
  {
    ConcatCons(id, []);
    ConcatCons(Slash, [id]);
    ConcatCons(room, [Slash, id]);
    ConcatCons(Slash, [room, Slash, id]);
    ConcatCons(area, [Slash, room, Slash, id]);
    ConcatCons(Slash, [area, Slash, room, Slash, id]);
    ConcatCons(metric, [Slash, area, Slash, room, Slash, id]);
    ConcatCons(Prefix, [metric, Slash, area, Slash, room, Slash, id]);
  }

  lemma ConcatCons(x: CString, rest: seq<CString>)
    ensures Concat([x] + rest) == x + Concat(rest)
  {
    assert ([x] + rest)[1..] == rest;
  }

  /** The concatenation of a list of strings. */
  function Concat(parts: seq<CString>): (s: CString)
  {
    if parts == [] then [] else parts[0] + Concat(parts[1..])
  }

  /** The run of `safe_strcat` calls of `build_metric_topic`, on a buffer
    * that starts out empty. */
  method AppendAll(buf: array<char>, parts: seq<CString>)
    requires buf.Length == TopicSize && '\0' in buf[..] && CText(buf[..]) == []
    modifies buf
    ensures CText(buf[..]) == Fit(Concat(parts), TopicSize)
  {
    var i := 0;
    while i < |parts|
      invariant 0 <= i <= |parts|
      invariant '\0' in buf[..]
      invariant CText(buf[..]) == Fit(Concat(parts[..i]), TopicSize)
    {
      ghost var before := CText(buf[..]);
      SafeStrcat(buf, TopicSize, Some(parts[i]));
      FitCat(Concat(parts[..i]), parts[i], TopicSize);
      ConcatSnoc(parts[..i], parts[i]);
      assert parts[..i + 1] == parts[..i] + [parts[i]];
      i := i + 1;
    }
    assert parts[..i] == parts;
  }

  lemma {:induction false} ConcatSnoc(parts: seq<CString>, last: CString)
    ensures Concat(parts + [last]) == Concat(parts) + last
  {
    if parts != [] {
      assert (parts + [last])[1..] == parts[1..] + [last];
      ConcatSnoc(parts[1..], last);
    }
  }

  // ------------------------------------------------------- the queue

  /** A queued report: the name pointer, the value and the tag collection
    * pointer, as `report_metric` stores them. */
  datatype Report = Report(name: CString, value: real, tags: TagCollection)

  /** The metrics queue handle: `None` while it is NULL, else the reports
    * waiting in it. */
  class MetricsSystem {
    var queue: Option<seq<Report>>

    constructor ()
      ensures queue.None?
    {
      queue := None;
    }

    /** `initialize_metrics_system`: `queueOk` and `taskOk` are the results
      * of creating the queue and the reporting task; a failed task creation
      * deletes the queue again. */
    method Initialize(queueOk: bool, taskOk: bool) returns (err: EspErr)
      modifies this
      ensures err == (if queueOk && taskOk then OK else FAIL)
      ensures queue == (if queueOk && taskOk then Some([]) else None)
    {
      if !queueOk {
        queue := None;
        return FAIL;
      }
      queue := Some([]);
      if !taskOk {
        queue := None;
        return FAIL;
      }
      err := OK;
    }

    /** `report_metric`, from a task or an interrupt: without a queue it
      * refuses with INVALID_STATE, a NULL name or collection is refused with
      * INVALID_ARG, and a full queue makes the send fail. */
    method ReportMetric(name: Option<CString>, value: real, tags: TagCollection?) returns (err: EspErr)
      modifies this
      ensures old(queue).None? ==> err == INVALID_STATE
      ensures old(queue).Some? && (name.None? || tags == null) ==> err == INVALID_ARG
      ensures old(queue).Some? && name.Some? && tags != null ==>
        err == (if |old(queue).value| >= QueueSize then FAIL else OK)
      ensures err == OK ==> queue == Some(old(queue).value + [Report(name.value, value, tags)])
      ensures err != OK ==> queue == old(queue)
    {
      if queue.None? {
        return INVALID_STATE;
      }
      if name.None? || tags == null {
        return INVALID_ARG;
      }
      if |queue.value| >= QueueSize {
        return FAIL;
      }
      queue := Some(queue.value + [Report(name.value, value, tags)]);
      err := OK;
    }
  }
}
