/** The roomsensor host-side serial console: a port that is opened and
  * closed, the DTR/RTS reset sequences of an ESP32 auto-reset circuit, line
  * writes, and two growing buffers filled by the reader loop: every raw
  * byte, and the text of each chunk with its CSI sequences removed.
  *
  * The reader thread is modelled as the method `OnRead`, called once per
  * non-empty `read(512)`. The polling waits take the data that arrives
  * between two of their checks as a parameter; a wait whose checks are all
  * negative stands for one that reached its deadline. */
module SerialConsole {
  import opened CStr
  import opened Terminal

  /** A control action on the port, in the order the console performs it. */
  datatype Control =
    | SetDtr(asserted: bool)
    | SetRts(asserted: bool)
    | ClearBreak
    | ClosePort

  datatype Outcome = Done | NotOpen

  /** Strapping pin IO0 low (DTR), then a pulse on EN (RTS), then IO0 high. */
  const BootloaderReset: seq<Control> := [SetDtr(true), SetRts(true), SetRts(false), SetDtr(false)]
  /** IO0 high first, then a pulse on EN. */
  const NormalReset: seq<Control> := [SetDtr(false), SetRts(true), SetRts(false)]
  /** Both control lines parked de-asserted. */
  const OpenControls: seq<Control> := [SetDtr(false), SetRts(false)]
  /** Break cleared and both lines de-asserted before the port is closed. */
  const CloseControls: seq<Control> := [ClearBreak, SetDtr(false), SetRts(false), ClosePort]

  /** `"".join(chunks)`, and `b"".join(chunks)` for bytes. */
  function Join<T>(chunks: seq<seq<T>>): (t: seq<T>)
    ensures chunks == [] ==> t == []
  {
    if chunks == [] then [] else Join(chunks[..|chunks| - 1]) + chunks[|chunks| - 1]
  }

  /** What `_clean_ansi(data.decode())` makes of one chunk. */
  function CleanChunk(data: seq<bv8>): (t: string)
    ensures |t| <= |data|
    ensures ESC !in Decode(data) ==> t == Decode(data)
  {
    var t := StripCsi(Decode(data));
    if ESC in Decode(data) then t else StripCsiNoEsc(Decode(data)); t
  }

  /** `needle` occurs in `hay` at or after `start`, normalised as Python
    * normalises a search start: what `hay.find(needle, start) != -1` means. */
  predicate HitAfter<T(==)>(hay: seq<T>, needle: seq<T>, start: int) {
    exists j | PyStart(|hay|, start) <= j <= |hay| :: OccursAt(hay, needle, j)
  }

  /** Taking in one more chunk appends it: the buffer after `n + 1` reads
    * is the buffer after `n` reads followed by the next chunk. */
  lemma JoinStep<T>(before: seq<T>, chunks: seq<seq<T>>, n: nat)
    requires n < |chunks|
    ensures before + Join(chunks[..n + 1]) == (before + Join(chunks[..n])) + chunks[n]
  {
    var p := chunks[..n + 1];
    assert p[..|p| - 1] == chunks[..n];
    assert Join(p) == Join(chunks[..n]) + chunks[n];
    assert before + (Join(chunks[..n]) + chunks[n]) == (before + Join(chunks[..n])) + chunks[n];
  }

  /** The same for the clean text. */
  lemma CleanStep(before: string, chunks: seq<seq<bv8>>, n: nat)
    requires n < |chunks|
    ensures before + CleanOf(chunks[..n + 1]) == (before + CleanOf(chunks[..n])) + CleanChunk(chunks[n])
  {
    var p := chunks[..n + 1];
    assert p[..|p| - 1] == chunks[..n];
    assert CleanOf(p) == CleanOf(chunks[..n]) + CleanChunk(chunks[n]);
    assert before + (CleanOf(chunks[..n]) + CleanChunk(chunks[n])) == (before + CleanOf(chunks[..n])) + CleanChunk(chunks[n]);
  }

  /** The clean text that a run of reads adds, one `CleanChunk` each. */
  function CleanOf(arrivals: seq<seq<bv8>>): (t: string)
    ensures |t| <= |Join(arrivals)|
  {
    if arrivals == [] then []
    else CleanOf(arrivals[..|arrivals| - 1]) + CleanChunk(arrivals[|arrivals| - 1])
  }

  /** A match at or after a position in the newer part of a buffer lies
    * wholly in that newer part: text found after a mark was received after
    * the mark was taken. */
  lemma {:induction false} FoundAfterMarkIsNew<T>(before: seq<T>, added: seq<T>, target: seq<T>)
    requires PyFind(before + added, target, |before|) != -1
    ensures Contains(added, target)
  {
    var all := before + added;
    var r := PyFind(all, target, |before|);
    assert OccursAt(all, target, r);
    assert all[r..r + |target|] == added[r - |before|..r - |before| + |target|];
    assert OccursAt(added, target, r - |before|);
  }

  /** Conversely, every occurrence in data received after a mark is found by
    * a search from that mark. */
  lemma {:induction false} NewTextIsFoundAfterMark<T>(before: seq<T>, added: seq<T>, target: seq<T>)
    requires Contains(added, target)
    ensures PyFind(before + added, target, |before|) != -1
  {
    var all := before + added;
    var j :| 0 <= j <= |added| && OccursAt(added, target, j);
    assert all[|before| + j..|before| + j + |target|] == added[j..j + |target|];
    assert OccursAt(all, target, |before| + j);
  }

  /** With a non-negative start, a match stays found however much data
    * arrives later. */
  lemma {:induction false} FoundStaysFound<T>(buf: seq<T>, added: seq<T>, target: seq<T>, start: int)
    requires start >= 0 && PyFind(buf, target, start) != -1
    ensures PyFind(buf + added, target, start) != -1
  {
    var r := PyFind(buf, target, start);
    assert (buf + added)[r..r + |target|] == buf[r..r + |target|];
    assert OccursAt(buf + added, target, r);
  }

  /** A negative start counts from the end of the buffer, so a match seen at
    * one poll can be out of range at the next. */
  lemma NegativeStartCanLoseMatch()
    ensures var buf: seq<bv8> := [0x41];
      PyFind(buf, [0x41], -1) == 0 && PyFind(buf + [0x42], [0x41], -1) == -1
  {
    var buf: seq<bv8> := [0x41];
    var more: seq<bv8> := buf + [0x42];
    assert OccursAt(buf, [0x41], 0);
    assert more[1..2] == [0x42];
    assert FindFrom(more, [0x41], 1) == FindFrom(more, [0x41], 2) == -1;
  }

  /** Each chunk is cleaned on its own: a control sequence split across two
    * reads survives in the clean text, while cleaning the joined bytes would
    * remove it. */
  lemma SplitSequenceSurvives()
    ensures var first: seq<bv8> := [0x1B, 0x5B];
      var second: seq<bv8> := [0x6D];
      CleanChunk(first) + CleanChunk(second) == Decode(first + second)
      && CleanChunk(first + second) == []
  {
    var first: seq<bv8> := [0x1B, 0x5B];
    var second: seq<bv8> := [0x6D];
    var f := Decode(first);
    assert CsiAt(f) == 0 by {
      assert !IsCsi(f);
    }
    assert CsiAt(f[1..]) == 0;
    assert CleanChunk(first) == f;
    assert CleanChunk(second) == Decode(second);
    var both := Decode(first + second);
    assert CsiSplit(both, 2);
    assert CsiAt(both) == 3;
    assert both[3..] == [];
  }

  class Console {
    var isOpen: bool
    /** Every byte read, never trimmed. */
    var buffer: seq<bv8>
    /** The non-empty cleaned text of each read, in order. */
    var cleanChunks: seq<string>
    /** The byte strings handed to the port's `write`, in order. */
    var written: seq<seq<bv8>>
    /** The control actions performed, in order. */
    var controls: seq<Control>

    constructor ()
      ensures !isOpen && buffer == [] && cleanChunks == [] && written == [] && controls == []
    {
      isOpen := false;
      buffer := [];
      cleanChunks := [];
      written := [];
      controls := [];
    }

    /** Clean chunks are never empty: an empty cleaned read is not kept. */
    predicate Valid()
      reads this
    {
      forall i :: 0 <= i < |cleanChunks| ==> cleanChunks[i] != []
    }

    /** `get_mark`: the position where the next byte read will land. */
    function Mark(): (m: nat)
      reads this
      ensures m == |buffer|
    {
      |buffer|
    }

    /** `get_clean_text`. */
    function CleanText(): (t: string)
      reads this
      ensures cleanChunks == [] ==> t == []
    {
      Join(cleanChunks)
    }

    /** `get_clean_mark`: the position in the clean text where the next
      * cleaned read will land. */
    function CleanMark(): (m: nat)
      reads this
      ensures m == |CleanText()|
    {
      |Join(cleanChunks)|
    }

    /** The check of `wait_for_after`: the encoded text occurs in the raw
      * buffer at or after `start`, normalised as Python normalises it. */
    predicate FoundAfter(text: string, start: int)
      reads this
    {
      PyFind(buffer, Encode(text), start) != -1
    }

    /** The check of `wait_for_clean_after`, on the clean text. */
    predicate CleanFoundAfter(text: string, start: int)
      reads this
    {
      PyFind(CleanText(), text, start) != -1
    }

    method Open()
      modifies this
      ensures isOpen && controls == old(controls) + OpenControls
      ensures buffer == old(buffer) && cleanChunks == old(cleanChunks) && written == old(written)
    {
      isOpen := true;
      controls := controls + OpenControls;
    }

    /** A failure of any control action is swallowed, so every action is
      * attempted; the port ends closed either way. */
    method Close()
      modifies this
      ensures !isOpen
      ensures old(isOpen) ==> controls == old(controls) + CloseControls
      ensures !old(isOpen) ==> controls == old(controls)
      ensures buffer == old(buffer) && cleanChunks == old(cleanChunks) && written == old(written)
    {
      if isOpen {
        controls := controls + CloseControls;
      }
      isOpen := false;
    }

    method ResetBootloader() returns (r: Outcome)
      modifies this`controls
      ensures r == NotOpen <==> !isOpen
      ensures isOpen ==> controls == old(controls) + BootloaderReset
      ensures !isOpen ==> controls == old(controls)
    {
      if !isOpen {
        return NotOpen;
      }
      controls := controls + BootloaderReset;
      r := Done;
    }

    method ResetNormal() returns (r: Outcome)
      modifies this`controls
      ensures r == NotOpen <==> !isOpen
      ensures isOpen ==> controls == old(controls) + NormalReset
      ensures !isOpen ==> controls == old(controls)
    {
      if !isOpen {
        return NotOpen;
      }
      controls := controls + NormalReset;
      r := Done;
    }

    method Write(data: seq<bv8>) returns (r: Outcome)
      modifies this`written
      ensures r == NotOpen <==> !isOpen
      ensures isOpen ==> written == old(written) + [data]
      ensures !isOpen ==> written == old(written)
    {
      if !isOpen {
        return NotOpen;
      }
      written := written + [data];
      r := Done;
    }

    /** The line and the carriage return go out as two separate writes. */
    method WriteLine(line: string) returns (r: Outcome)
      modifies this`written
      ensures r == NotOpen <==> !isOpen
      ensures isOpen ==> written == old(written) + [Encode(line), [0x0D]]
      ensures !isOpen ==> written == old(written)
    {
      if !isOpen {
        return NotOpen;
      }
      r := Write(Encode(line));
      r := Write([0x0D]);
    }

    /** One pass of the reader loop that got `data`. */
    method OnRead(data: seq<bv8>)
      requires Valid()
      modifies this`buffer, this`cleanChunks
      ensures Valid()
      ensures data == [] ==> buffer == old(buffer) && cleanChunks == old(cleanChunks)
      ensures data != [] ==> buffer == old(buffer) + data
      ensures data != [] && CleanChunk(data) != [] ==> cleanChunks == old(cleanChunks) + [CleanChunk(data)]
      ensures CleanChunk(data) == [] ==> cleanChunks == old(cleanChunks)
      ensures CleanText() == old(CleanText()) + CleanChunk(data)
    {
      if data != [] {
        buffer := buffer + data;
        var text := CleanChunk(data);
        if text != [] {
          cleanChunks := cleanChunks + [text];
          assert cleanChunks[..|cleanChunks| - 1] == old(cleanChunks);
        }
      } else {
        assert Decode(data) == [];
      }
    }

    /** `wait_for(text)`: `arrivals[i]` is what the reader got after the
      * `i`-th negative check. The wait ends at the first check that sees the
      * text; a wait that times out has taken in every arrival and seen the
      * text at none of its checks. */
    method WaitFor(text: string, arrivals: seq<seq<bv8>>) returns (found: bool)
      requires Valid()
      modifies this`buffer, this`cleanChunks
      ensures Valid()
      ensures old(buffer) <= buffer && old(cleanChunks) <= cleanChunks
      ensures found ==> Contains(buffer, Encode(text))
      ensures found ==> exists n | 0 <= n < |arrivals| ::
        buffer == old(buffer) + Join(arrivals[..n]) &&
        forall k | 0 <= k < n :: !Contains(old(buffer) + Join(arrivals[..k]), Encode(text))
      ensures !found ==> buffer == old(buffer) + Join(arrivals)
      ensures !found ==> forall k | 0 <= k < |arrivals| ::
        !Contains(old(buffer) + Join(arrivals[..k]), Encode(text))
    {
      var i := 0;
      while i < |arrivals|
        invariant 0 <= i <= |arrivals|
        invariant Valid()
        invariant old(buffer) <= buffer && old(cleanChunks) <= cleanChunks
        invariant buffer == old(buffer) + Join(arrivals[..i])
        invariant forall k | 0 <= k < i :: !Contains(old(buffer) + Join(arrivals[..k]), Encode(text))
      {
        if Contains(buffer, Encode(text)) {
          return true;
        }
        ghost var misses := buffer;
        OnRead(arrivals[i]);
        JoinStep(old(buffer), arrivals, i);
        forall k | 0 <= k < i + 1
          ensures !Contains(old(buffer) + Join(arrivals[..k]), Encode(text))
        {
          if k == i {
            assert old(buffer) + Join(arrivals[..k]) == misses;
          }
        }
        i := i + 1;
      }
      assert arrivals[..i] == arrivals;
      found := false;
    }

    /** `wait_for_after(text, start)`, with the same first-hit and timeout
      * behaviour as `WaitFor`. */
    method WaitForAfter(text: string, start: int, arrivals: seq<seq<bv8>>) returns (found: bool)
      requires Valid()
      modifies this`buffer, this`cleanChunks
      ensures Valid()
      ensures old(buffer) <= buffer && old(cleanChunks) <= cleanChunks
      ensures found ==> exists j :: PyStart(|buffer|, start) <= j && OccursAt(buffer, Encode(text), j)
      ensures found ==> exists n | 0 <= n < |arrivals| ::
        buffer == old(buffer) + Join(arrivals[..n]) &&
        forall k | 0 <= k < n :: !HitAfter(old(buffer) + Join(arrivals[..k]), Encode(text), start)
      ensures !found ==> buffer == old(buffer) + Join(arrivals)
      ensures !found ==> forall k | 0 <= k < |arrivals| ::
        !HitAfter(old(buffer) + Join(arrivals[..k]), Encode(text), start)
    {
      var i := 0;
      while i < |arrivals|
        invariant 0 <= i <= |arrivals|
        invariant Valid()
        invariant old(buffer) <= buffer && old(cleanChunks) <= cleanChunks
        invariant buffer == old(buffer) + Join(arrivals[..i])
        invariant forall k | 0 <= k < i :: !HitAfter(old(buffer) + Join(arrivals[..k]), Encode(text), start)
      {
        if FoundAfter(text, start) {
          assert OccursAt(buffer, Encode(text), PyFind(buffer, Encode(text), start));
          return true;
        }
        ghost var misses := old(buffer) + Join(arrivals[..i]);
        assert !HitAfter(misses, Encode(text), start);
        OnRead(arrivals[i]);
        JoinStep(old(buffer), arrivals, i);
        forall k | 0 <= k < i + 1
          ensures !HitAfter(old(buffer) + Join(arrivals[..k]), Encode(text), start)
        {
          if k == i {
            assert old(buffer) + Join(arrivals[..k]) == misses;
          }
        }
        i := i + 1;
      }
      assert arrivals[..i] == arrivals;
      found := false;
    }

    /** `wait_for_clean_after(text, start)`, where `start` is a clean mark,
      * with the same first-hit and timeout behaviour on the clean text. */
    method WaitForCleanAfter(text: string, start: int, arrivals: seq<seq<bv8>>) returns (found: bool)
      requires Valid()
      modifies this`buffer, this`cleanChunks
      ensures Valid()
      ensures old(buffer) <= buffer && old(cleanChunks) <= cleanChunks
      ensures found ==> exists j :: PyStart(CleanMark(), start) <= j && OccursAt(CleanText(), text, j)
      ensures found ==> exists n | 0 <= n < |arrivals| ::
        CleanText() == old(CleanText()) + CleanOf(arrivals[..n]) &&
        forall k | 0 <= k < n :: !HitAfter(old(CleanText()) + CleanOf(arrivals[..k]), text, start)
      ensures !found ==> buffer == old(buffer) + Join(arrivals)
      ensures !found ==> CleanText() == old(CleanText()) + CleanOf(arrivals)
      ensures !found ==> forall k | 0 <= k < |arrivals| ::
        !HitAfter(old(CleanText()) + CleanOf(arrivals[..k]), text, start)
    {
      var i := 0;
      while i < |arrivals|
        invariant 0 <= i <= |arrivals|
        invariant Valid()
        invariant old(buffer) <= buffer && old(cleanChunks) <= cleanChunks
        invariant buffer == old(buffer) + Join(arrivals[..i])
        invariant CleanText() == old(CleanText()) + CleanOf(arrivals[..i])
        invariant forall k | 0 <= k < i :: !HitAfter(old(CleanText()) + CleanOf(arrivals[..k]), text, start)
      {
        if CleanFoundAfter(text, start) {
          assert OccursAt(CleanText(), text, PyFind(CleanText(), text, start));
          return true;
        }
        ghost var misses := old(CleanText()) + CleanOf(arrivals[..i]);
        assert !HitAfter(misses, text, start);
        OnRead(arrivals[i]);
        JoinStep(old(buffer), arrivals, i);
        CleanStep(old(CleanText()), arrivals, i);
        forall k | 0 <= k < i + 1
          ensures !HitAfter(old(CleanText()) + CleanOf(arrivals[..k]), text, start)
        {
          if k == i {
            assert old(CleanText()) + CleanOf(arrivals[..k]) == misses;
          }
        }
        i := i + 1;
      }
      assert arrivals[..i] == arrivals;
      found := false;
    }
  }
}
