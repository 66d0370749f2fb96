/** The test fixture's serial connection: a reader that answers cursor
  * queries and appends everything else to a bounded byte buffer whose
  * logical start (`base`) moves forward as old bytes are evicted, marks
  * into that logical byte stream, and the command, reset and idle-wait
  * operations built on it.
  *
  * The reader thread is modelled as the method `OnChunk`, called once per
  * chunk the port returns; waits take the chunks that arrive while they
  * poll as a parameter, and times are milliseconds supplied by the caller. */
module SerialConnection {
  import opened CTypes
  import opened CStr
  import opened Terminal

  /** The default `buffer_limit_bytes`. */
  const DefaultLimit: nat := 1_000_000
  /** `wait_for_idle`'s defaults, in milliseconds: silence 1.0 s, timeout 20.0 s. */
  const IdleSilenceMs: int := 1000
  const IdleTimeoutMs: int := 20000

  /** A modem control line set to a level. */
  datatype Line = Dtr(high: bool) | Rts(high: bool)

  /** `reset_run`'s sequence: boot mode normal (DTR low), then an EN pulse on RTS. */
  const RunResetPulse: seq<Line> := [Dtr(false), Rts(true), Rts(false)]

  /** The newest `limit` bytes of `stream`: what a buffer that evicts from the
    * front whenever it exceeds `limit` holds after receiving `stream`. */
  function Window(stream: seq<bv8>, limit: nat): (w: seq<bv8>)
    ensures |w| == Min(limit, |stream|)
    ensures w == stream[|stream| - |w|..]
  {
    if |stream| > limit then stream[|stream| - limit..] else stream
  }

  /** Extending and then evicting one chunk keeps the window of the whole stream. */
  lemma WindowExtend(stream: seq<bv8>, limit: nat, kept: seq<bv8>)
    ensures Window(Window(stream, limit) + kept, limit) == Window(stream + kept, limit)
  {
    var all := stream + kept;
    if |stream| > limit {
      var d := |stream| - limit;
      var w := stream[d..];
      assert Window(stream, limit) == w;
      assert w + kept == all[d..];
      assert |w + kept| == limit + |kept|;
      assert Window(w + kept, limit) == (w + kept)[|kept|..];
      assert Window(all, limit) == all[d + |kept|..];
      assert (w + kept)[|kept|..] == all[d + |kept|..];
    } else {
      assert Window(stream, limit) == stream;
    }
  }

  /** The bytes the reader appends for one chunk: nothing for an empty read,
    * else the chunk with every cursor query removed. */
  function Kept(chunk: seq<bv8>): (k: seq<bv8>)
    ensures |k| <= |chunk|
    ensures !Contains(chunk, CursorQuery) ==> k == chunk
  {
    if chunk == [] then [] else StripQueries(chunk)
  }

  /** The bytes a run of reads appends, chunk by chunk. */
  function KeptAll(chunks: seq<seq<bv8>>): (k: seq<bv8>)
  {
    if chunks == [] then [] else KeptAll(chunks[..|chunks| - 1]) + Kept(chunks[|chunks| - 1])
  }

  /** The sanitized text of the whole buffer once `stream` has been
    * received: what `_wait_echo` searches. */
  function WholeText(stream: seq<bv8>, limit: nat): (t: string)
    ensures |t| <= Min(limit, |stream|)
  {
    Sanitize(Decode(Window(stream, limit)))
  }

  /** Reading one more chunk appends its kept bytes. */
  lemma KeptStep(before: seq<bv8>, chunks: seq<seq<bv8>>, n: nat)
    requires n < |chunks|
    ensures before + KeptAll(chunks[..n + 1]) == (before + KeptAll(chunks[..n])) + Kept(chunks[n])
  {
    var p := chunks[..n + 1];
    assert p[..|p| - 1] == chunks[..n];
    assert before + (KeptAll(chunks[..n]) + Kept(chunks[n])) == (before + KeptAll(chunks[..n])) + Kept(chunks[n]);
  }

  /** Every write in `w` is a cursor position report. */
  predicate OnlyReports(w: seq<seq<bv8>>) {
    forall j :: 0 <= j < |w| ==> w[j] == CursorReport
  }

  /** The reply to one more chunk keeps the writes since `w0` all reports. */
  lemma ReportsExtend(w0: seq<seq<bv8>>, w: seq<seq<bv8>>, chunk: seq<bv8>)
    requires w0 <= w && OnlyReports(w[|w0|..])
    ensures w0 <= w + QueryReplies(chunk) && OnlyReports((w + QueryReplies(chunk))[|w0|..])
  {
    var r := QueryReplies(chunk);
    assert (w + r)[|w0|..] == w[|w0|..] + r;
  }

  /** One turn of `wait_for_idle`: the time at the loop test, the bytes the
    * reader buffers while it sleeps, and the time after the sleep. */
  datatype Poll = Poll(check: int, chunk: seq<bv8>, now: int)

  /** Whether the wait returns (idle) rather than raising, when the reader's
    * progress is measured by the stream mark. `last` is the time data was
    * last seen. */
  function IdleOutcome(deadline: int, last: int, polls: seq<Poll>): (idle: bool)
    decreases |polls|
  {
    if polls == [] || polls[0].check >= deadline then false
    else
      var last' := if Kept(polls[0].chunk) != [] then polls[0].now else last;
      if polls[0].now - last' > IdleSilenceMs then true
      else IdleOutcome(deadline, last', polls[1..])
  }

  /** A console that keeps producing bytes at every poll is never reported idle. */
  lemma {:induction false} BusyNeverIdle(deadline: int, last: int, polls: seq<Poll>)
    requires forall i :: 0 <= i < |polls| ==> Kept(polls[i].chunk) != []
    ensures !IdleOutcome(deadline, last, polls)
    decreases |polls|
  {
    if polls != [] && polls[0].check < deadline {
      assert Kept(polls[0].chunk) != [];
      BusyNeverIdle(deadline, polls[0].now, polls[1..]);
    }
  }

  /** A poll that sees no bytes more than the silence after the last data, and
    * before the deadline, makes the wait return. */
  lemma QuietPollIsIdle(deadline: int, last: int, polls: seq<Poll>)
    requires |polls| > 0 && polls[0].check < deadline
    requires Kept(polls[0].chunk) == [] && polls[0].now - last > IdleSilenceMs
    ensures IdleOutcome(deadline, last, polls)
  {
  }

  /** What the loop of `wait_for_idle` sees AS WRITTEN: it compares
    * `len(self._buf)` before and after the sleep. */
  function LengthGrew(stream: seq<bv8>, limit: nat, chunk: seq<bv8>): (grew: bool)
  {
    |Window(stream + Kept(chunk), limit)| > |Window(stream, limit)|
  }

  /** Once the buffer is full, the length never grows, so bytes that keep
    * arriving read as silence. */
  lemma LengthSampleMissesData(stream: seq<bv8>, limit: nat, chunk: seq<bv8>)
    requires |stream| >= limit
    ensures !LengthGrew(stream, limit, chunk)
  {
  }

  /** The idle outcome as written, with growth measured by the buffer length. */
  function IdleOutcomeByLength(deadline: int, last: int, stream: seq<bv8>, limit: nat, polls: seq<Poll>): (idle: bool)
    decreases |polls|
  {
    if polls == [] || polls[0].check >= deadline then false
    else
      var last' := if LengthGrew(stream, limit, polls[0].chunk) then polls[0].now else last;
      if polls[0].now - last' > IdleSilenceMs then true
      else IdleOutcomeByLength(deadline, last', stream + Kept(polls[0].chunk), limit, polls[1..])
  }

  /** Two polls 0.6 s apart, each bringing one byte into a full one-byte
    * buffer: the length test reports the console idle although it is not,
    * while the mark test does not. */
  lemma IdleByLengthOnFullBuffer()
    ensures var polls := [Poll(0, [0x41], 600), Poll(600, [0x42], 1200)];
      IdleOutcomeByLength(IdleTimeoutMs, 0, [0x40], 1, polls) && !IdleOutcome(IdleTimeoutMs, 0, polls)
  {
    var polls := [Poll(0, [0x41], 600), Poll(600, [0x42], 1200)];
    var a: seq<bv8>, b: seq<bv8> := [0x41], [0x42];
    assert !Contains(a, CursorQuery) && !Contains(b, CursorQuery);
    LengthSampleMissesData([0x40], 1, [0x41]);
    LengthSampleMissesData([0x40, 0x41], 1, [0x42]);
    BusyNeverIdle(IdleTimeoutMs, 0, polls);
  }

  /** The mark grows exactly when the reader buffered bytes, whatever the fill. */
  lemma MarkSampleSeesData(stream: seq<bv8>, chunk: seq<bv8>)
    ensures |stream + Kept(chunk)| > |stream| <==> Kept(chunk) != []
  {
  }

  class Connection {
    /** `buffer_limit_bytes`. */
    const limit: nat
    /** `_buf`, the retained tail of the byte stream. */
    var buf: seq<bv8>
    /** `_buf_base_index`, the stream position of `buf[0]`. */
    var base: nat
    /** Every byte the reader has buffered since construction. */
    ghost var received: seq<bv8>
    /** The writes issued to the port, in order. */
    var written: seq<seq<bv8>>
    /** The modem line changes issued to the port, in order. */
    var lines: seq<Line>

    ghost predicate Valid()
      reads this
    {
      buf == Window(received, limit) && base == |received| - |buf|
    }

    constructor (limit: nat)
      ensures Valid() && this.limit == limit
      ensures buf == [] && base == 0 && received == []
      ensures written == [] && lines == []
    {
      this.limit := limit;
      buf := [];
      base := 0;
      received := [];
      written := [];
      lines := [];
    }

    /** `_buf_base_index + len(_buf)`: the stream position just past the
      * newest byte, i.e. the number of bytes buffered so far. */
    function Mark(): (m: nat)
      reads this
      requires Valid()
      ensures m == |received|
      ensures |buf| <= limit
    {
      base + |buf|
    }

    /** One pass of `_read_loop` over the chunk `data` returned by `read`. */
    method OnChunk(data: seq<bv8>)
      requires Valid()
      modifies this
      ensures Valid()
      ensures received == old(received) + Kept(data)
      ensures written == old(written) + QueryReplies(data)
      ensures lines == old(lines)
      ensures |buf| <= limit
      ensures base == old(base) + (|old(buf)| + |Kept(data)| - |buf|)
    {
      if data == [] {
        assert !Contains(data, CursorQuery);
        return;
      }
      var d := data;
      if Contains(d, CursorQuery) {
        written := written + [CursorReport];
        d := RemoveAll(d, CursorQuery);
      }
      assert d == Kept(data);
      Extend(d);
    }

    /** The locked part of `_read_loop`: append the kept bytes, then evict
      * from the front down to the limit, moving the base past what is dropped. */
    method Extend(d: seq<bv8>)
      requires Valid()
      modifies this`buf, this`base, this`received
      ensures Valid()
      ensures received == old(received) + d
      ensures |buf| <= limit
      ensures base == old(base) + (|old(buf)| + |d| - |buf|)
    {
      ghost var before := received;
      WindowExtend(before, limit, d);
      var grown := buf + d;
      if |grown| > limit {
        var drop := |grown| - limit;
        buf := grown[drop..];
        base := base + drop;
      } else {
        buf := grown;
      }
      assert grown == Window(before, limit) + d;
      assert buf == Window(grown, limit) == Window(before + d, limit);
      received := received + d;
      assert base == |received| - |buf|;
    }

    /** The bytes `_snapshot_from(start)` decodes: the whole buffer for no
      * mark, else the bytes from the mark on, a mark before the buffer
      * start being clamped to it. */
    function RawFrom(start: Option<int>): (r: seq<bv8>)
      reads this
      requires Valid()
      ensures start.None? ==> r == buf
      ensures start.Some? && start.value <= base ==> r == buf
      ensures start.Some? && base <= start.value <= |received| ==> r == received[start.value..]
      ensures start.Some? && start.value >= |received| ==> r == []
    {
      var rel := if start.None? then 0 else Max(0, start.value - base);
      if rel <= |buf| then buf[rel..] else []
    }

    /** `_snapshot_from` / `get_text`: the sanitized text from a mark. */
    function SnapshotFrom(start: Option<int>): (t: string)
      reads this
      requires Valid()
      ensures |t| <= |RawFrom(start)|
      ensures 0x1B !in RawFrom(start) ==> t == Decode(RawFrom(start))
    {
      var raw := RawFrom(start);
      SanitizeEscFreeBytes(raw);
      Sanitize(Decode(raw))
    }

    /** One turn of `_wait_echo`: look for the needle in the sanitized
      * buffer, and if it is not there, let the reader buffer `chunk`. */
    method EchoPoll(needle: string, chunk: seq<bv8>) returns (seen: bool)
      requires Valid()
      modifies this
      ensures Valid() && lines == old(lines)
      ensures seen ==> Contains(SnapshotFrom(None), needle)
      ensures seen == Contains(WholeText(old(received), limit), needle)
      ensures seen ==> received == old(received) && written == old(written)
      ensures !seen ==> received == old(received) + Kept(chunk) && written == old(written) + QueryReplies(chunk)
    {
      assert SnapshotFrom(None) == WholeText(received, limit);
      seen := Contains(SnapshotFrom(None), needle);
      if !seen {
        OnChunk(chunk);
      }
    }

    /** `_wait_echo`: poll the whole sanitized buffer for `line + "\n"`;
      * `polls[i]` is what the reader buffers during the i-th 50 ms sleep, and
      * the deadline falls after `|polls|` sleeps. The wait ends at the first
      * poll that sees the echo; one that times out has buffered every chunk
      * and seen the echo at none of its polls. */
    method WaitEcho(line: string, polls: seq<seq<bv8>>) returns (seen: bool)
      requires Valid()
      modifies this
      ensures Valid() && lines == old(lines)
      ensures old(received) <= received
      ensures old(written) <= written && OnlyReports(written[|old(written)|..])
      ensures seen ==> Contains(SnapshotFrom(None), line + "\n")
      ensures seen ==> exists n | 0 <= n < |polls| ::
        received == old(received) + KeptAll(polls[..n]) &&
        forall k | 0 <= k < n :: !Contains(WholeText(old(received) + KeptAll(polls[..k]), limit), line + "\n")
      ensures !seen ==> received == old(received) + KeptAll(polls)
      ensures !seen ==> forall k | 0 <= k < |polls| ::
        !Contains(WholeText(old(received) + KeptAll(polls[..k]), limit), line + "\n")
    {
      var i := 0;
      seen := false;
      while i < |polls|
        invariant 0 <= i <= |polls|
        invariant Valid() && lines == old(lines)
        invariant old(written) <= written && OnlyReports(written[|old(written)|..])
        invariant received == old(received) + KeptAll(polls[..i])
        invariant forall k | 0 <= k < i :: !Contains(WholeText(old(received) + KeptAll(polls[..k]), limit), line + "\n")
      {
        ghost var before, w := received, written;
        seen := EchoPoll(line + "\n", polls[i]);
        if seen {
          return;
        }
        ReportsExtend(old(written), w, polls[i]);
        KeptStep(old(received), polls, i);
        forall k | 0 <= k < i + 1
          ensures !Contains(WholeText(old(received) + KeptAll(polls[..k]), limit), line + "\n")
        {
          if k == i {
            assert old(received) + KeptAll(polls[..k]) == before;
          }
        }
        i := i + 1;
      }
      assert polls[..i] == polls;
    }

    /** `send_command`: take the mark, write the line and CR LF in one write,
      * wait for the echo, and return the mark whether or not it came. */
    method SendCommand(line: string, polls: seq<seq<bv8>>) returns (start: nat)
      requires Valid()
      modifies this
      ensures Valid() && lines == old(lines)
      ensures start == |old(received)| && old(received) <= received
      ensures |written| > |old(written)|
      ensures written[..|old(written)| + 1] == old(written) + [Encode(line + "\r\n")]
      ensures OnlyReports(written[|old(written)| + 1..])
    {
      start := Mark();
      written := written + [Encode(line + "\r\n")];
      ghost var w1 := written;
      var _ := WaitEcho(line, polls);
      assert written[..|w1|] == w1;
      assert written[|old(written)| + 1..] == written[|w1|..];
    }

    /** `reset_run`: take the mark, then drive DTR low and pulse RTS. A control
      * call that raises (`failAt` is its index; 3 or more means none does)
      * abandons the rest of the sequence, and the error is swallowed. */
    method ResetRun(failAt: nat) returns (start: nat)
      requires Valid()
      modifies this`lines
      ensures start == |received|
      ensures lines == old(lines) + RunResetPulse[..Min(failAt, 3)]
    {
      start := Mark();
      var i := 0;
      while i < 3 && i < failAt
        invariant 0 <= i <= Min(failAt, 3)
        invariant lines == old(lines) + RunResetPulse[..i]
      {
        lines := lines + [RunResetPulse[i]];
        assert RunResetPulse[..i + 1] == RunResetPulse[..i] + [RunResetPulse[i]];
        i := i + 1;
      }
    }

    /** `wait_for_idle`, measuring the reader's progress by the stream mark
      * (see README, Findings): returns whether it returned normally before
      * the deadline instead of raising. */
    method WaitForIdle(t0: int, polls: seq<Poll>) returns (idle: bool)
      requires Valid()
      modifies this
      ensures Valid() && lines == old(lines)
      ensures idle == IdleOutcome(t0 + IdleTimeoutMs, t0, polls)
      ensures old(received) <= received
      ensures old(written) <= written && OnlyReports(written[|old(written)|..])
    {
      var deadline := t0 + IdleTimeoutMs;
      var last := t0;
      var i := 0;
      while i < |polls| && polls[i].check < deadline
        invariant 0 <= i <= |polls|
        invariant Valid() && lines == old(lines)
        invariant old(received) <= received
        invariant old(written) <= written && OnlyReports(written[|old(written)|..])
        invariant IdleOutcome(deadline, t0, polls) == IdleOutcome(deadline, last, polls[i..])
      {
        var current := Mark();
        ghost var w, r := written, received;
        OnChunk(polls[i].chunk);
        ReportsExtend(old(written), w, polls[i].chunk);
        PrefixGrows(old(received), r, Kept(polls[i].chunk));
        assert polls[i..][1..] == polls[i + 1..];
        if Mark() > current {
          last := polls[i].now;
        }
        if polls[i].now - last > IdleSilenceMs {
          return true;
        }
        i := i + 1;
      }
      return false;
    }
  }
}
