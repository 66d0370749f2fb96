/** The C library string routines the firmware leans on (`isspace`, `atoi`,
  * `strcasecmp`, `strstr`, bounded copies) and Python's `str.find`, on
  * `seq<char>`. A NULL `const char*` is `None` in an `Option<string>`. */
module CStr {
  import opened CTypes

  predicate IsSpace(c: char) {
    c == ' ' || c == '\t' || c == '\n' || c == '\U{B}' || c == '\U{C}' || c == '\r'
  }

  predicate IsDigit(c: char) {
    '0' <= c <= '9'
  }

  predicate IsHexDigit(c: char) {
    IsDigit(c) || 'a' <= c <= 'f' || 'A' <= c <= 'F'
  }

  predicate IsAlnum(c: char) {
    IsDigit(c) || 'a' <= c <= 'z' || 'A' <= c <= 'Z'
  }

  function DigitValue(c: char): (d: nat)
    requires IsDigit(c)
    ensures d < 10
  {
    c as int - '0' as int
  }

  function DigitChar(d: nat): (c: char)
    requires d < 10
    ensures IsDigit(c) && DigitValue(c) == d
  {
    ('0' as int + d) as char
  }

  /** Value of a hexadecimal digit of either case. */
  function HexValue(c: char): (d: nat)
    requires IsHexDigit(c)
    ensures d < 16
  {
    if IsDigit(c) then DigitValue(c)
    else if 'a' <= c <= 'f' then c as int - 'a' as int + 10
    else c as int - 'A' as int + 10
  }

  /** Lower-case hexadecimal digit, as `%x` prints it. */
  function HexChar(d: nat): (c: char)
    requires d < 16
    ensures IsHexDigit(c) && HexValue(c) == d
    ensures !('A' <= c <= 'Z')
  {
    if d < 10 then DigitChar(d) else ('a' as int + d - 10) as char
  }

  /** `tolower` on ASCII. */
  function Lower(c: char): (l: char)
    ensures 'A' <= c <= 'Z' ==> l as int == c as int + 32
    ensures !('A' <= c <= 'Z') ==> l == c
  {
    if 'A' <= c <= 'Z' then (c as int + 32) as char else c
  }

  function LowerStr(s: string): (l: string)
    ensures |l| == |s|
    ensures forall i :: 0 <= i < |s| ==> l[i] == Lower(s[i])
  {
    if s == [] then [] else [Lower(s[0])] + LowerStr(s[1..])
  }

  /** `strcasecmp(a, b) == 0`. */
  predicate CaseEq(a: string, b: string) {
    LowerStr(a) == LowerStr(b)
  }

  // ---------------------------------------------------------------- atoi

  /** The number of leading characters of `s` satisfying `IsSpace`. */
  function SpaceRun(s: string): (n: nat)
    ensures n <= |s|
    ensures forall i :: 0 <= i < n ==> IsSpace(s[i])
    ensures n < |s| ==> !IsSpace(s[n])
  {
    if s == [] || !IsSpace(s[0]) then 0 else 1 + SpaceRun(s[1..])
  }

  /** The number of leading decimal digits of `s`. */
  function DigitRun(s: string): (n: nat)
    ensures n <= |s|
    ensures forall i :: 0 <= i < n ==> IsDigit(s[i])
    ensures n < |s| ==> !IsDigit(s[n])
  {
    if s == [] || !IsDigit(s[0]) then 0 else 1 + DigitRun(s[1..])
  }

  predicate AllDigits(s: string) {
    forall i :: 0 <= i < |s| ==> IsDigit(s[i])
  }

  /** The value of a string of decimal digits, most significant first. */
  function DigitsValue(s: string): (v: nat)
    requires AllDigits(s)
  {
    if s == [] then 0 else DigitsValue(s[..|s| - 1]) * 10 + DigitValue(s[|s| - 1])
  }

  /** `atoi`: leading white space, an optional sign and the longest run of
    * digits; 0 when there is no digit. Integers are unbounded here, so the
    * undefined behaviour of `atoi` on overflow is not modelled. */
  function Atoi(s: string): (v: int)
    ensures s == [] ==> v == 0
  {
    var t := s[SpaceRun(s)..];
    if t != [] && (t[0] == '-' || t[0] == '+') then
      var v: int := DigitsValue(t[1..][..DigitRun(t[1..])]);
      if t[0] == '-' then -v else v
    else
      DigitsValue(t[..DigitRun(t)])
  }

  /** The decimal numeral of a natural number, without leading zeros. */
  function NatString(n: nat): (s: string)
    ensures |s| >= 1 && AllDigits(s)
    ensures n > 0 ==> s[0] != '0'
    decreases n
  {
    if n < 10 then [DigitChar(n)] else NatString(n / 10) + [DigitChar(n % 10)]
  }

  /** `printf("%d", n)` / Python `str(n)` for an integer. */
  function IntString(n: int): (s: string)
    ensures |s| >= 1
    ensures n < 0 <==> s[0] == '-'
  {
    if n < 0 then "-" + NatString(-n) else NatString(n)
  }

  lemma {:induction false} NatStringValue(n: nat)
    ensures DigitsValue(NatString(n)) == n
    decreases n
  {
    var s := NatString(n);
    if n >= 10 {
      NatStringValue(n / 10);
      assert s[..|s| - 1] == NatString(n / 10);
    }
  }

  lemma DigitRunAll(s: string)
    requires AllDigits(s)
    ensures DigitRun(s) == |s|
  {
  }

  /** `atoi` reads back every numeral that `IntString` prints. */
  lemma AtoiIntString(n: int)
    ensures Atoi(IntString(n)) == n
  {
    var s := IntString(n);
    assert SpaceRun(s) == 0 by {
      assert !IsSpace(s[0]) by {
        if n >= 0 { assert IsDigit(NatString(n)[0]); }
      }
    }
    assert s[SpaceRun(s)..] == s;
    if n < 0 {
      var d := NatString(-n);
      assert s[1..] == d;
      DigitRunAll(d);
      assert d[..DigitRun(d)] == d;
      NatStringValue(-n);
    } else {
      DigitRunAll(s);
      assert s[0] != '-' && s[0] != '+' by { assert IsDigit(s[0]); }
      assert s[..DigitRun(s)] == s;
      NatStringValue(n);
    }
  }

  // ---------------------------------------------------------------- search

  /** `needle` occurs in `hay` at position `i`. */
  predicate OccursAt<T(==)>(hay: seq<T>, needle: seq<T>, i: int) {
    0 <= i && i + |needle| <= |hay| && hay[i..i + |needle|] == needle
  }

  /** The lowest position at or after `i` where `needle` occurs, or -1. */
  function FindFrom<T(==)>(hay: seq<T>, needle: seq<T>, i: nat): (r: int)
    ensures r == -1 || (i <= r && OccursAt(hay, needle, r))
    ensures r == -1 ==> forall j :: i <= j ==> !OccursAt(hay, needle, j)
    ensures r != -1 ==> forall j :: i <= j < r ==> !OccursAt(hay, needle, j)
    decreases |hay| - i
  {
    if i + |needle| > |hay| then -1
    else if hay[i..i + |needle|] == needle then i
    else FindFrom(hay, needle, i + 1)
  }

  /** Python's `hay.find(needle, start)`: a negative start counts from the
    * end and is then clamped to 0. */
  function PyFind<T(==)>(hay: seq<T>, needle: seq<T>, start: int): (r: int)
    ensures r == -1 <==> forall j :: PyStart(|hay|, start) <= j ==> !OccursAt(hay, needle, j)
    ensures r != -1 ==> PyStart(|hay|, start) <= r && OccursAt(hay, needle, r)
  {
    FindFrom(hay, needle, PyStart(|hay|, start))
  }

  /** How Python normalises a slice or search start against a length. */
  function PyStart(len: nat, start: int): (s: nat)
    ensures start >= 0 ==> s == start
    ensures start < 0 && len + start >= 0 ==> s == len + start
    ensures len + start < 0 ==> s == 0
  {
    if start >= 0 then start else if len + start >= 0 then len + start else 0
  }

  /** Appending keeps a prefix a prefix. */
  lemma PrefixGrows<T>(a: seq<T>, b: seq<T>, c: seq<T>)
    requires a <= b
    ensures a <= b + c
  {
    assert (b + c)[..|a|] == b[..|a|];
  }

  /** `needle in hay` for Python strings and bytes. */
  predicate Contains<T(==)>(hay: seq<T>, needle: seq<T>) {
    exists j :: 0 <= j <= |hay| && OccursAt(hay, needle, j)
  }

  /** `strstr`: the first occurrence, or NULL. */
  function StrStr(hay: string, needle: string): (r: Option<nat>)
    ensures r.Some? <==> Contains(hay, needle)
    ensures r.Some? ==> OccursAt(hay, needle, r.value)
    ensures r.Some? ==> forall j :: 0 <= j < r.value ==> !OccursAt(hay, needle, j)
  {
    var k := FindFrom(hay, needle, 0);
    if k == -1 then None else Some(k)
  }

  /** `strchr`: the first position of `c`, or NULL. */
  function StrChr(s: string, c: char): (r: Option<nat>)
    ensures r.Some? ==> r.value < |s| && s[r.value] == c && c !in s[..r.value]
    ensures r.None? ==> c !in s
  {
    if c !in s then None
    else if s[0] == c then Some(0)
    else
      var k := StrChr(s[1..], c);
      assert s[1..][..k.value] == s[1..k.value + 1];
      Some(1 + k.value)
  }

  /** `c` at `p` with none before it is what `strchr` finds. */
  lemma StrChrAt(s: string, c: char, p: nat)
    requires p < |s| && s[p] == c && c !in s[..p]
    ensures StrChr(s, c) == Some(p)
  {
    assert s[p] == c;
  }

  /** The text a bounded copy into a `size`-byte buffer keeps: at most
    * `size - 1` characters, then the terminator. */
  function Fit(s: string, size: nat): (r: string)
    requires size >= 1
    ensures |r| <= size - 1 && r <= s
    ensures |s| < size ==> r == s
    ensures '\0' !in s ==> '\0' !in r
  {
    if |s| < size then s else s[..size - 1]
  }

  // ---------------------------------------------------------------- buffers

  /** The characters of a NUL-terminated string, which never include NUL. */
  type CString = s: string | '\0' !in s

  /** The string a character buffer holds: everything before its first NUL. */
  function CText(buf: seq<char>): (r: CString)
    ensures r <= buf
    ensures |r| < |buf| ==> buf[|r|] == '\0'
    ensures '\0' !in buf ==> r == buf
  {
    match StrChr(buf, '\0')
    case None => buf
    case Some(k) => buf[..k]
  }

  /** A terminator at `p` with none before it ends the held string there. */
  lemma CTextAt(buf: seq<char>, p: nat)
    requires p < |buf| && buf[p] == '\0' && '\0' !in buf[..p]
    ensures CText(buf) == buf[..p]
  {
    assert buf[p] == '\0';
  }
}
