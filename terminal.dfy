/** The terminal handling shared by the host-side serial tools: the
  * cursor-position query a line editor sends (DSR, `ESC [ 6 n`, section
  * 8.3.35 of ECMA-48) and the report that answers it (CPR, `ESC [ 1 ; 1 R`,
  * section 8.3.14), the removal of the query from captured bytes, and the
  * removal of control sequences (CSI, section 5.4 of ECMA-48) and operating
  * system commands (OSC) from decoded text.
  *
  * Bytes are `seq<bv8>`. Text is `string`; encoding is UTF-8, decoding
  * maps each byte to the character with the same code (see README). */
module Terminal {
  import opened CTypes
  import opened CStr

  const ESC: char := 27 as char
  const BEL: char := 7 as char

  /** `b"\x1b[6n"`, the device status report asking for the cursor position. */
  const CursorQuery: seq<bv8> := [0x1B, 0x5B, 0x36, 0x6E]
  /** `b"\x1b[1;1R"`, the cursor position report sent back: row 1, column 1. */
  const CursorReport: seq<bv8> := [0x1B, 0x5B, 0x31, 0x3B, 0x31, 0x52]

  function Decode(b: seq<bv8>): (t: string)
    ensures |t| == |b|
    ensures forall i :: 0 <= i < |b| ==> t[i] as int == b[i] as int
  {
    seq(|b|, i requires 0 <= i < |b| => b[i] as int as char)
  }

  /** The byte with value `x`. */
  function Byte(x: nat): (b: bv8)
    requires x < 0x100
    ensures b as int == x
  {
    assert x % 0x100 == x;
    x as bv8
  }

  /** A continuation byte: `10xxxxxx`. */
  predicate IsCont(x: bv8) {
    0x80 <= x as int < 0xC0
  }

  /** A continuation byte carrying the low six bits of `n`. */
  function Cont(n: nat): (b: bv8)
    ensures b as int == 0x80 + n % 64
    ensures IsCont(b)
  {
    Byte(0x80 + n % 64)
  }

  /** Two bytes for 0x80 .. 0x7FF: five bits in the lead byte. */
  function Utf8Two(n: nat): (b: seq<bv8>)
    requires 0x80 <= n < 0x800
    ensures forall k | 1 <= k < |b| :: IsCont(b[k])
    ensures |b| == 2 && b[0] as int == 0xC0 + n / 64 && b[1] as int == 0x80 + n % 64
    ensures 0xC2 <= b[0] as int <= 0xDF
  {
    [Byte(0xC0 + n / 64), Cont(n)]
  }

  /** Three bytes for 0x800 .. 0xFFFF: four bits in the lead byte. */
  function Utf8Three(n: nat): (b: seq<bv8>)
    requires 0x800 <= n < 0x1_0000
    ensures forall k | 1 <= k < |b| :: IsCont(b[k])
    ensures |b| == 3 && b[0] as int == 0xE0 + n / 64 / 64
    ensures b[1] as int == 0x80 + (n / 64) % 64 && b[2] as int == 0x80 + n % 64
  {
    var m1 := n / 64;
    assert m1 < 0x400;
    [Byte(0xE0 + m1 / 64), Cont(m1), Cont(n)]
  }

  /** Four bytes for 0x10000 .. 0x10FFFF: three bits in the lead byte. */
  function Utf8Four(n: nat): (b: seq<bv8>)
    requires 0x1_0000 <= n < 0x11_0000
    ensures forall k | 1 <= k < |b| :: IsCont(b[k])
    ensures |b| == 4 && b[0] as int == 0xF0 + n / 64 / 64 / 64 && b[1] as int == 0x80 + (n / 64 / 64) % 64
    ensures b[2] as int == 0x80 + (n / 64) % 64 && b[3] as int == 0x80 + n % 64
    ensures 0xF0 <= b[0] as int <= 0xF4
  {
    var m1 := n / 64;
    assert m1 < 0x4400;
    var m2 := m1 / 64;
    assert m2 < 0x110;
    var m3 := m2 / 64;
    assert m3 < 5;
    [Byte(0xF0 + m3), Cont(m2), Cont(m1), Cont(n)]
  }

  /** `c.encode("utf-8")` for one character: one byte below 0x80, and two,
    * three or four bytes below 0x800, 0x10000 and 0x110000, a lead byte
    * followed by continuation bytes, six bits each, most significant first
    * (section 3 of RFC 3629). */
  function Utf8(c: char): (b: seq<bv8>)
    ensures 1 <= |b| <= 4
    ensures |b| == 1 <==> c as int < 0x80
    ensures |b| == 1 ==> b[0] as int == c as int
    ensures |b| > 1 ==> 0xC2 <= b[0] as int <= 0xF4
    ensures forall k | 1 <= k < |b| :: IsCont(b[k])
  {
    var n := c as int;
    if n < 0x80 then [Byte(n)]
    else if n < 0x800 then Utf8Two(n)
    else if n < 0x1_0000 then Utf8Three(n)
    else Utf8Four(n)
  }

  /** Text to bytes: `text.encode("utf-8")`, character by character. */
  function Encode(t: string): (b: seq<bv8>)
    ensures |b| >= |t|
  {
    if t == [] then [] else Utf8(t[0]) + Encode(t[1..])
  }

  /** ASCII text encodes to one byte per character, its code. */
  lemma {:induction false} EncodeAscii(t: string)
    requires forall i | 0 <= i < |t| :: t[i] as int < 0x80
    ensures |Encode(t)| == |t|
    ensures forall i | 0 <= i < |t| :: Encode(t)[i] as int == t[i] as int
  {
    if t != [] {
      EncodeAscii(t[1..]);
      var u := Utf8(t[0]);
      assert |u| == 1;
      assert Encode(t) == u + Encode(t[1..]);
    }
  }

  /** Dropping the head of a non-empty front part. */
  lemma TailOfAppend<T>(a: seq<T>, b: seq<T>)
    requires a != []
    ensures a + b != [] && (a + b)[0] == a[0] && (a + b)[1..] == a[1..] + b
  {
    assert forall i | 0 <= i < |a| - 1 + |b| :: (a + b)[1..][i] == (a[1..] + b)[i];
  }

  /** Encoding distributes over concatenation. */
  lemma {:induction false} EncodeAppend(a: string, b: string)
    ensures Encode(a + b) == Encode(a) + Encode(b)
  {
    if a == [] {
      assert a + b == b;
    } else {
      var c, u, v := a[0], Encode(a[1..]), Encode(b);
      calc {
        Encode(a + b);
      == { TailOfAppend(a, b); }
        Utf8(c) + Encode(a[1..] + b);
      == { EncodeAppend(a[1..], b); }
        Utf8(c) + (u + v);
      ==
        (Utf8(c) + u) + v;
      == { assert Encode(a) == Utf8(c) + u; }
        Encode(a) + v;
      }
    }
  }

  // ------------------------------------------------------ UTF-8 decoding

  /** The length of the sequence a lead byte announces, 0 for a byte that
    * cannot start one. */
  function SeqLength(lead: bv8): (n: nat)
    ensures n <= 4
    ensures n == 1 <==> lead < 0x80
    ensures IsCont(lead) ==> n == 0
  {
    if lead < 0x80 then 1
    else if 0xC2 <= lead <= 0xDF then 2
    else if 0xE0 <= lead <= 0xEF then 3
    else if 0xF0 <= lead <= 0xF4 then 4
    else 0
  }

  /** The code point a lead byte and its continuation bytes spell. */
  function CodePoint(u: seq<bv8>): int
    requires 1 <= |u| <= 4
  {
    if |u| == 1 then u[0] as int
    else
      var lead := u[0] as int - (if |u| == 2 then 0xC0 else if |u| == 3 then 0xE0 else 0xF0);
      Continue(lead, u[1..])
  }

  /** Six more bits per continuation byte. */
  function Continue(acc: int, rest: seq<bv8>): int
    decreases |rest|
  {
    if rest == [] then acc else Continue(acc * 64 + (rest[0] as int - 0x80), rest[1..])
  }

  predicate IsScalar(v: int) {
    0 <= v < 0xD800 || 0xE000 <= v < 0x11_0000
  }

  /** Strict UTF-8 decoding, the reference `Encode` is checked against:
    * `None` at the first malformed sequence. */
  function DecodeUtf8(b: seq<bv8>): (t: Option<string>)
    ensures t.Some? ==> |t.value| <= |b|
    decreases |b|
  {
    if b == [] then Some([])
    else
      var n := SeqLength(b[0]);
      if n == 0 || n > |b| then None
      else if exists k | 1 <= k < n :: !IsCont(b[k]) then None
      else
        var v := CodePoint(b[..n]);
        if !IsScalar(v) then None
        else match DecodeUtf8(b[n..])
          case None => None
          case Some(r) => Some([v as char] + r)
  }

  lemma SpellTwo(n: nat)
    requires 0x80 <= n < 0x800
    ensures CodePoint(Utf8Two(n)) == n
  {
    var u := Utf8Two(n);
    assert u[1..][1..] == [];
    assert CodePoint(u) == Continue(n / 64, u[1..]);
  }

  /** A continuation byte built from `m`, taken in after the bits above
    * it, gives back `m`. */
  lemma ContinueCont(m: nat, s: seq<bv8>)
    requires s != [] && s[0] as int == 0x80 + m % 64
    ensures Continue(m / 64, s) == Continue(m, s[1..])
  {
    assert s[0] as int - 0x80 == m % 64;
    assert (m / 64) * 64 + m % 64 == m;
  }

  /** A three- or four-byte sequence: the lead byte's bits, then the rest. */
  lemma CodePointLead(u: seq<bv8>, offset: int)
    requires 3 <= |u| <= 4 && offset == (if |u| == 3 then 0xE0 else 0xF0)
    ensures CodePoint(u) == Continue(u[0] as int - offset, u[1..])
  {
  }

  lemma SpellThree(n: nat)
    requires 0x800 <= n < 0x1_0000
    ensures CodePoint(Utf8Three(n)) == n
  {
    SpellThreeBytes(n, Utf8Three(n));
  }

  /** Three bytes laid out as `Utf8Three(n)` lays them out spell `n`. */
  lemma SpellThreeBytes(n: nat, u: seq<bv8>)
    requires |u| == 3 && u[0] as int == 0xE0 + n / 64 / 64 && u[1] as int == 0x80 + (n / 64) % 64
    requires u[2] as int == 0x80 + n % 64
    ensures CodePoint(u) == n
  {
    var r1 := u[1..];
    var r2 := r1[1..];
    calc {
      CodePoint(u);
    == { CodePointLead(u, 0xE0); }
      Continue(n / 64 / 64, r1);
    == { ContinueCont(n / 64, r1); }
      Continue(n / 64, r2);
    == { ContinueCont(n, r2); }
      Continue(n, r2[1..]);
    == { assert r2[1..] == []; }
      n;
    }
  }

  lemma SpellFour(n: nat)
    requires 0x1_0000 <= n < 0x11_0000
    ensures CodePoint(Utf8Four(n)) == n
  {
    SpellFourBytes(n, Utf8Four(n));
  }

  /** Four bytes laid out as `Utf8Four(n)` lays them out spell `n`. */
  lemma SpellFourBytes(n: nat, u: seq<bv8>)
    requires |u| == 4 && u[0] as int == 0xF0 + n / 64 / 64 / 64 && u[1] as int == 0x80 + (n / 64 / 64) % 64
    requires u[2] as int == 0x80 + (n / 64) % 64 && u[3] as int == 0x80 + n % 64
    ensures CodePoint(u) == n
  {
    var r1 := u[1..];
    var r2 := r1[1..];
    var r3 := r2[1..];
    calc {
      CodePoint(u);
    == { CodePointLead(u, 0xF0); }
      Continue(n / 64 / 64 / 64, r1);
    == { ContinueCont(n / 64 / 64, r1); }
      Continue(n / 64 / 64, r2);
    == { ContinueCont(n / 64, r2); }
      Continue(n / 64, r3);
    == { ContinueCont(n, r3); }
      Continue(n, r3[1..]);
    == { assert r3[1..] == []; }
      n;
    }
  }

  /** One character's bytes announce their own length and spell it. */
  lemma Utf8Spells(c: char)
    ensures SeqLength(Utf8(c)[0]) == |Utf8(c)|
    ensures CodePoint(Utf8(c)) == c as int
  {
    var n := c as int;
    if n < 0x80 {
    } else if n < 0x800 {
      SpellTwo(n);
    } else if n < 0x1_0000 {
      SpellThree(n);
    } else {
      SpellFour(n);
    }
  }

  /** Decoding a character's bytes, followed by anything, gives the
    * character back first. */
  lemma DecodeUtf8Cons(c: char, rest: seq<bv8>)
    ensures DecodeUtf8(Utf8(c) + rest) ==
      match DecodeUtf8(rest) case None => None case Some(r) => Some([c] + r)
  {
    var u := Utf8(c);
    var b := u + rest;
    Utf8Spells(c);
    var n := |u|;
    assert b[0] == u[0] && SeqLength(b[0]) == n <= |b|;
    assert b[..n] == u;
    assert b[n..] == rest;
    assert forall k | 1 <= k < n :: b[k] == u[k];
    assert !(exists k | 1 <= k < n :: !IsCont(b[k]));
    var v := CodePoint(b[..n]);
    assert v == c as int && IsScalar(v) && v as char == c;
  }

  /** Strict UTF-8 decoding undoes the encoding: no two texts are sent as
    * the same bytes. */
  lemma {:induction false} DecodeUtf8Encode(t: string)
    ensures DecodeUtf8(Encode(t)) == Some(t)
  {
    if t != [] {
      DecodeUtf8Encode(t[1..]);
      DecodeUtf8Cons(t[0], Encode(t[1..]));
      assert [t[0]] + t[1..] == t;
    }
  }

  /** Different texts are different bytes on the wire. */
  lemma EncodeInjective(s: string, t: string)
    requires Encode(s) == Encode(t)
    ensures s == t
  {
    DecodeUtf8Encode(s);
    DecodeUtf8Encode(t);
  }

  /** On ASCII bytes the byte-per-character decoding and UTF-8 agree. */
  lemma DecodeEncode(b: seq<bv8>)
    requires forall i | 0 <= i < |b| :: b[i] < 0x80
    ensures Encode(Decode(b)) == b
  {
    var t := Decode(b);
    assert forall i | 0 <= i < |t| :: t[i] as int < 0x80;
    EncodeAscii(t);
    var e := Encode(t);
    assert forall i | 0 <= i < |b| :: e[i] == b[i];
  }

  // ------------------------------------------------------ byte patterns

  /** Python's `s.replace(pat, b"")`: scanning left to right, every
    * non-overlapping occurrence of `pat` is dropped and scanning resumes
    * after it. */
  function RemoveAll<T(==)>(s: seq<T>, pat: seq<T>): (r: seq<T>)
    requires |pat| > 0
    ensures |r| <= |s|
    decreases |s|
  {
    if |s| < |pat| then s
    else if s[..|pat|] == pat then RemoveAll(s[|pat|..], pat)
    else [s[0]] + RemoveAll(s[1..], pat)
  }

  /** Without an occurrence of the pattern, removal changes nothing. */
  lemma {:induction false} RemoveAllAbsent<T>(s: seq<T>, pat: seq<T>)
    requires |pat| > 0 && !Contains(s, pat)
    ensures RemoveAll(s, pat) == s
    decreases |s|
  {
    if |s| >= |pat| {
      assert !OccursAt(s, pat, 0);
      assert s[..|pat|] != pat;
      assert !Contains(s[1..], pat) by {
        forall i | 0 <= i <= |s[1..]| ensures !OccursAt(s[1..], pat, i) {
          assert !OccursAt(s, pat, i + 1);
          if i + |pat| <= |s[1..]| {
            assert s[1..][i..i + |pat|] == s[i + 1..i + 1 + |pat|];
          }
        }
      }
      RemoveAllAbsent(s[1..], pat);
    }
  }

  /** With an occurrence, removal shortens the bytes by at least the pattern. */
  lemma {:induction false} RemoveAllPresent<T>(s: seq<T>, pat: seq<T>)
    requires |pat| > 0 && Contains(s, pat)
    ensures |RemoveAll(s, pat)| <= |s| - |pat|
    decreases |s|
  {
    var i :| 0 <= i <= |s| && OccursAt(s, pat, i);
    if s[..|pat|] != pat {
      assert i > 0;
      assert OccursAt(s[1..], pat, i - 1) by {
        assert s[1..][i - 1..i - 1 + |pat|] == s[i..i + |pat|];
      }
      RemoveAllPresent(s[1..], pat);
    }
  }

  /** An occurrence preceded by bytes that cannot start one is removed, and
    * the bytes in front are kept. */
  lemma {:induction false} RemoveAllSplit<T>(a: seq<T>, pat: seq<T>, b: seq<T>)
    requires |pat| > 0 && pat[0] !in a
    ensures RemoveAll(a + pat + b, pat) == a + RemoveAll(b, pat)
    decreases |a|
  {
    if a == [] {
      assert a + pat + b == pat + b;
      RemoveAllHit(pat, b);
    } else {
      var t := a[1..] + pat + b;
      assert a + pat + b == [a[0]] + t;
      RemoveAllMiss(a[0], t, pat);
      RemoveAllSplit(a[1..], pat, b);
      var r := RemoveAll(b, pat);
      assert [a[0]] + a[1..] == a;
      assert [a[0]] + (a[1..] + r) == ([a[0]] + a[1..]) + r;
    }
  }

  /** An occurrence at the front is dropped. */
  lemma RemoveAllHit<T>(pat: seq<T>, b: seq<T>)
    requires |pat| > 0
    ensures RemoveAll(pat + b, pat) == RemoveAll(b, pat)
  {
    var s := pat + b;
    assert s[..|pat|] == pat;
    assert s[|pat|..] == b;
  }

  /** Where no occurrence starts, the first element is kept. */
  lemma RemoveAllMiss<T>(x: T, t: seq<T>, pat: seq<T>)
    requires 0 < |pat| <= |t| + 1 && x != pat[0]
    ensures RemoveAll([x] + t, pat) == [x] + RemoveAll(t, pat)
  {
    var s := [x] + t;
    assert s[..|pat|][0] == x;
    assert s[1..] == t;
  }

  /** Removal is not a closure: deleting one query can join the bytes
    * around it into a new query, which is then kept. */
  lemma RemoveAllCanReform()
    ensures var s: seq<bv8> := [0x1B, 0x5B] + CursorQuery + [0x36, 0x6E];
      Contains(s, CursorQuery) && RemoveAll(s, CursorQuery) == CursorQuery
  {
    var s: seq<bv8> := [0x1B, 0x5B] + CursorQuery + [0x36, 0x6E];
    assert s == [0x1B, 0x5B, 0x1B, 0x5B, 0x36, 0x6E, 0x36, 0x6E];
    assert OccursAt(s, CursorQuery, 2);
    var tail: seq<bv8> := [0x36, 0x6E];
    assert RemoveAll(tail, CursorQuery) == tail;
    var s2 := s[2..];
    assert s2[..4] == CursorQuery && s2[4..] == tail;
    assert RemoveAll(s2, CursorQuery) == tail;
    var s1 := s[1..];
    assert s1[..4][1] != CursorQuery[1];
    assert s1[1..] == s2;
    assert RemoveAll(s1, CursorQuery) == [0x5B] + tail;
    assert s[..4][2] != CursorQuery[2];
    assert RemoveAll(s, CursorQuery) == [0x1B] + ([0x5B] + tail);
  }

  /** What the reader does to one non-empty chunk before buffering it: the
    * writes it answers with and the bytes it keeps. */
  function QueryReplies(chunk: seq<bv8>): (w: seq<seq<bv8>>)
    ensures |w| <= 1
    ensures w == [CursorReport] <==> Contains(chunk, CursorQuery)
  {
    if Contains(chunk, CursorQuery) then [CursorReport] else []
  }

  function StripQueries(chunk: seq<bv8>): (kept: seq<bv8>)
    ensures !Contains(chunk, CursorQuery) ==> kept == chunk
    ensures Contains(chunk, CursorQuery) ==> |kept| <= |chunk| - 4
  {
    if Contains(chunk, CursorQuery) then
      RemoveAllPresent(chunk, CursorQuery);
      RemoveAll(chunk, CursorQuery)
    else
      RemoveAllAbsent(chunk, CursorQuery);
      chunk
  }

  // ------------------------------------------------------ CSI sequences

  /** Parameter bytes `[0-?]`, intermediate bytes `[ -/]`, final bytes `[@-~]`. */
  predicate IsParam(c: char) { '0' <= c <= '?' }
  predicate IsInter(c: char) { ' ' <= c <= '/' }
  predicate IsFinal(c: char) { '@' <= c <= '~' }

  function ParamRun(s: string, i: nat): (j: nat)
    requires i <= |s|
    ensures i <= j <= |s|
    ensures forall k :: i <= k < j ==> IsParam(s[k])
    ensures j < |s| ==> !IsParam(s[j])
    decreases |s| - i
  {
    if i < |s| && IsParam(s[i]) then ParamRun(s, i + 1) else i
  }

  function InterRun(s: string, i: nat): (j: nat)
    requires i <= |s|
    ensures i <= j <= |s|
    ensures forall k :: i <= k < j ==> IsInter(s[k])
    ensures j < |s| ==> !IsInter(s[j])
    decreases |s| - i
  {
    if i < |s| && IsInter(s[i]) then InterRun(s, i + 1) else i
  }

  /** `s` is one control sequence: `ESC [`, parameter bytes, intermediate
    * bytes and a final byte. */
  predicate IsCsi(s: string) {
    |s| >= 3 && s[0] == ESC && s[1] == '[' && IsFinal(s[|s| - 1]) &&
    exists p :: 2 <= p <= |s| - 1 && CsiSplit(s, p)
  }

  /** Positions `2..p` hold parameter bytes and `p..|s|-1` intermediate bytes. */
  predicate CsiSplit(s: string, p: nat)
    requires 2 <= p <= |s| - 1
  {
    (forall k :: 2 <= k < p ==> IsParam(s[k])) &&
    (forall k :: p <= k < |s| - 1 ==> IsInter(s[k]))
  }

  /** The length of the match of `\x1B\[[0-?]*[ -/]*[@-~]` at the start of
    * `s`. The three byte classes are disjoint, so the match is the maximal
    * parameter run, then the maximal intermediate run, then one final byte. */
  function CsiAt(s: string): (n: nat)
    ensures n == 0 || (3 <= n <= |s| && IsCsi(s[..n]))
  {
    if |s| >= 2 && s[0] == ESC && s[1] == '[' then
      var p := ParamRun(s, 2);
      var q := InterRun(s, p);
      if q < |s| && IsFinal(s[q]) then
        assert IsCsi(s[..q + 1]) by {
          var t := s[..q + 1];
          assert CsiSplit(t, p);
        }
        q + 1
      else 0
    else 0
  }

  /** The regular expression matches every prefix that is a control sequence. */
  lemma CsiAtComplete(c: string, rest: string)
    requires IsCsi(c)
    ensures CsiAt(c + rest) == |c|
  {
    var s := c + rest;
    var p :| 2 <= p <= |c| - 1 && CsiSplit(c, p);
    assert forall k :: 0 <= k < |c| ==> s[k] == c[k];
    assert ParamRun(s, 2) == p by { ParamRunIs(s, 2, p); }
    assert InterRun(s, p) == |c| - 1 by { InterRunIs(s, p, |c| - 1); }
  }

  lemma {:induction false} ParamRunIs(s: string, i: nat, p: nat)
    requires i <= p < |s|
    requires forall k :: i <= k < p ==> IsParam(s[k])
    requires !IsParam(s[p])
    ensures ParamRun(s, i) == p
    decreases p - i
  {
    if i < p {
      ParamRunIs(s, i + 1, p);
    }
  }

  lemma {:induction false} InterRunIs(s: string, i: nat, q: nat)
    requires i <= q < |s|
    requires forall k :: i <= k < q ==> IsInter(s[k])
    requires !IsInter(s[q])
    ensures InterRun(s, i) == q
    decreases q - i
  {
    if i < q {
      InterRunIs(s, i + 1, q);
    }
  }

  /** `ANSI_CSI_RE.sub("", text)`: left to right, each match is dropped and
    * every other character is kept. */
  function StripCsi(s: string): (r: string)
    ensures |r| <= |s|
    decreases |s|
  {
    if s == [] then []
    else
      var n := CsiAt(s);
      if n > 0 then StripCsi(s[n..]) else [s[0]] + StripCsi(s[1..])
  }

  // ------------------------------------------------------ OSC sequences

  /** The end of the shortest `.*?(?:\x07|\x1B\\)` starting at `i`: the
    * position just after the first BEL or `ESC \`, provided no newline comes
    * first (`.` does not match a newline); 0 when there is none. */
  function OscEnd(s: string, i: nat): (e: nat)
    requires i <= |s|
    ensures e == 0 || i < e <= |s|
    decreases |s| - i
  {
    if i >= |s| || s[i] == '\n' then 0
    else if s[i] == BEL then i + 1
    else if s[i] == ESC && i + 1 < |s| && s[i + 1] == '\\' then i + 2
    else OscEnd(s, i + 1)
  }

  /** The length of the match of `\x1B\].*?(?:\x07|\x1B\\)` at the start of `s`. */
  function OscAt(s: string): (n: nat)
    ensures n == 0 || (3 <= n <= |s| && s[0] == ESC && s[1] == ']')
  {
    if |s| >= 2 && s[0] == ESC && s[1] == ']' then OscEnd(s, 2) else 0
  }

  /** `s` is one operating system command: `ESC ]`, a body without newline,
    * BEL or `ESC \`, and one of the two terminators. */
  predicate IsOsc(s: string) {
    |s| >= 3 && s[0] == ESC && s[1] == ']' &&
    (forall k :: 2 <= k < |s| - 1 ==> s[k] != '\n' && s[k] != BEL && !(s[k] == ESC && s[k + 1] == '\\')) &&
    (s[|s| - 1] == BEL || (|s| >= 4 && s[|s| - 2] == ESC && s[|s| - 1] == '\\' && s[|s| - 3] != '\n'))
  }

  function StripOsc(s: string): (r: string)
    ensures |r| <= |s|
    decreases |s|
  {
    if s == [] then []
    else
      var n := OscAt(s);
      if n > 0 then StripOsc(s[n..]) else [s[0]] + StripOsc(s[1..])
  }

  /** `_sanitize`: operating system commands first, then control sequences. */
  function Sanitize(t: string): (r: string)
    ensures |r| <= |t|
  {
    StripCsi(StripOsc(t))
  }

  // ------------------------------------------------------ properties

  lemma {:induction false} StripCsiNoEsc(s: string)
    requires ESC !in s
    ensures StripCsi(s) == s
    decreases |s|
  {
    if s != [] {
      assert s[0] != ESC;
      assert s == [s[0]] + s[1..];
      StripCsiNoEsc(s[1..]);
    }
  }

  lemma {:induction false} StripOscNoEsc(s: string)
    requires ESC !in s
    ensures StripOsc(s) == s
    decreases |s|
  {
    if s != [] {
      assert s[0] != ESC;
      assert s == [s[0]] + s[1..];
      StripOscNoEsc(s[1..]);
    }
  }

  /** Text without an escape character is left exactly as it was. */
  lemma SanitizeNoEsc(t: string)
    requires ESC !in t
    ensures Sanitize(t) == t
  {
    StripOscNoEsc(t);
    StripCsiNoEsc(t);
  }

  /** Text without an escape character passes through in front of anything. */
  lemma {:induction false} StripCsiKeepsPrefix(a: string, t: string)
    requires ESC !in a
    ensures StripCsi(a + t) == a + StripCsi(t)
    decreases |a|
  {
    if a != [] {
      var s := a + t;
      assert s[0] == a[0];
      assert CsiAt(s) == 0;
      assert s[1..] == a[1..] + t;
      assert StripCsi(s) == [a[0]] + StripCsi(a[1..] + t);
      StripCsiKeepsPrefix(a[1..], t);
      assert [a[0]] + (a[1..] + StripCsi(t)) == a + StripCsi(t);
    } else {
      assert a + t == t;
    }
  }

  /** Text in front of a control sequence is kept, the sequence is dropped. */
  lemma StripCsiSplit(a: string, c: string, b: string)
    requires ESC !in a && IsCsi(c)
    ensures StripCsi(a + c + b) == a + StripCsi(b)
  {
    CsiAtComplete(c, b);
    assert (c + b)[|c|..] == b;
    StripCsiKeepsPrefix(a, c + b);
    assert a + c + b == a + (c + b);
  }

  lemma OscEndIs(s: string, i: nat, e: nat)
    requires 2 <= i < e <= |s|
    requires forall k :: i <= k < e - 1 ==> s[k] != '\n' && s[k] != BEL && !(s[k] == ESC && s[k + 1] == '\\')
    requires s[e - 1] == BEL || (e - 2 >= i && s[e - 2] == ESC && s[e - 1] == '\\' && s[e - 2] != '\n')
    ensures OscEnd(s, i) == e
    decreases e - i
  {
    if s[e - 1] == BEL && i == e - 1 {
    } else if i == e - 2 && s[e - 2] == ESC && s[e - 1] == '\\' {
    } else {
      assert s[i] != '\n' && s[i] != BEL;
      assert !(s[i] == ESC && s[i + 1] == '\\');
      OscEndIs(s, i + 1, e);
    }
  }

  lemma {:induction false} StripOscKeepsPrefix(a: string, t: string)
    requires ESC !in a
    ensures StripOsc(a + t) == a + StripOsc(t)
    decreases |a|
  {
    if a != [] {
      var s := a + t;
      assert s[0] == a[0];
      assert OscAt(s) == 0;
      assert s[1..] == a[1..] + t;
      assert StripOsc(s) == [a[0]] + StripOsc(a[1..] + t);
      StripOscKeepsPrefix(a[1..], t);
      assert [a[0]] + (a[1..] + StripOsc(t)) == a + StripOsc(t);
    } else {
      assert a + t == t;
    }
  }

  /** Text in front of an operating system command is kept, the command is dropped. */
  lemma StripOscSplit(a: string, o: string, b: string)
    requires ESC !in a && IsOsc(o)
    ensures StripOsc(a + o + b) == a + StripOsc(b)
  {
    var s := o + b;
    assert forall k :: 0 <= k < |o| ==> s[k] == o[k];
    OscEndIs(s, 2, |o|);
    assert s[|o|..] == b;
    StripOscKeepsPrefix(a, s);
    assert a + o + b == a + s;
  }

  /** Bytes without 0x1B decode to text that sanitizing leaves alone. */
  lemma SanitizeEscFreeBytes(raw: seq<bv8>)
    ensures 0x1B !in raw ==> Sanitize(Decode(raw)) == Decode(raw)
  {
    var text := Decode(raw);
    if 0x1B !in raw {
      assert ESC !in text by {
        forall i | 0 <= i < |text| ensures text[i] != ESC {
          assert text[i] as int == raw[i] as int;
        }
      }
      SanitizeNoEsc(text);
    }
  }
}
