/** Value parsing shared by the configuration modules: the boolean words they
  * accept, `atoi` with a default for a NULL value, and the `%d` and `%Ns`
  * conversions of `sscanf` with which the keyed modules split their keys. */
module ConfigText {
  import opened CTypes
  import opened CStr

  /** What an `apply_update` hands back: its `esp_err_t` and the module's
    * configuration afterwards. */
  datatype Applied<S> = Applied(err: EspErr, state: S)

  /** The nullable key `key` is the string `k`: `key && strcmp(key, k) == 0`. */
  predicate IsKey(key: Option<CString>, k: string) {
    key.Some? && key.value == k
  }

  /** `strncmp(s, p, |p|) == 0`: `s` starts with `p`. */
  predicate HasPrefix(s: string, p: string) {
    p <= s
  }

  /** The text of a nullable value, `""` for NULL. */
  function TextOr(value: Option<CString>): (t: CString)
    ensures value.Some? ==> t == value.value
    ensures value.None? ==> t == ""
  {
    if value.Some? then value.value else ""
  }

  /** `value ? atoi(value) : d`. */
  function IntOr(value: Option<CString>, d: int): (n: int)
    ensures value.None? ==> n == d
    ensures value.Some? && value.value == "" ==> n == 0
  {
    if value.Some? then Atoi(value.value) else d
  }

  /** A printed integer is read back by `IntOr`. */
  lemma IntOrIntString(n: int, d: int)
    ensures '\0' !in IntString(n) && IntOr(Some(IntString(n)), d) == n
  {
    var s := IntString(n);
    assert forall i :: 0 <= i < |s| ==> s[i] != '\0' by {
      if n >= 0 { assert AllDigits(s); } else { assert AllDigits(s[1..]); }
    }
    AtoiIntString(n);
  }

  predicate NoUpper(w: string) {
    forall i :: 0 <= i < |w| ==> !('A' <= w[i] <= 'Z')
  }

  /** `strcasecmp(v, w) == 0` for a word `w` written in lower case. */
  lemma {:induction false} CaseEqLower(v: string, w: string)
    requires NoUpper(w)
    ensures CaseEq(v, w) <==> LowerStr(v) == w
  {
    assert LowerStr(w) == w by { LowerStrNoUpper(w); }
  }

  lemma {:induction false} LowerStrNoUpper(w: string)
    requires NoUpper(w)
    ensures LowerStr(w) == w
  {
    if w != [] {
      LowerStrNoUpper(w[1..]);
    }
  }

  /** The words the LED `dma` key and the IO `switchN` keys take as ON. */
  const OnWords: seq<string> := ["1", "true", "on", "yes"]

  /** The words they take as OFF. */
  const OffWords: seq<string> := ["0", "false", "off", "no"]

  /** `v` matches an ON word under `strcasecmp`. */
  predicate Truthy(v: string) {
    LowerStr(v) in OnWords
  }

  /** `v` matches an OFF word under `strcasecmp`. */
  predicate Falsy(v: string) {
    LowerStr(v) in OffWords
  }

  /** `Truthy` is the chain of `strcasecmp` tests the modules write out. */
  lemma TruthyCaseEq(v: string)
    ensures Truthy(v) <==> CaseEq(v, "1") || CaseEq(v, "true") || CaseEq(v, "on") || CaseEq(v, "yes")
  {
    CaseEqLower(v, "1"); CaseEqLower(v, "true"); CaseEqLower(v, "on"); CaseEqLower(v, "yes");
  }

  /** `Falsy` is the chain of `strcasecmp` tests the modules write out. */
  lemma FalsyCaseEq(v: string)
    ensures Falsy(v) <==> CaseEq(v, "0") || CaseEq(v, "false") || CaseEq(v, "off") || CaseEq(v, "no")
  {
    CaseEqLower(v, "0"); CaseEqLower(v, "false"); CaseEqLower(v, "off"); CaseEqLower(v, "no");
  }

  /** No word is both ON and OFF, so the order of the two tests does not matter. */
  lemma TruthyFalsyDisjoint(v: string)
    ensures !(Truthy(v) && Falsy(v))
  {
  }

  // ------------------------------------------------------------ sscanf

  /** `%d` of `sscanf` at the start of `s`: white space, an optional sign
    * and at least one digit. Gives the value and the number of characters
    * the conversion consumed, or `None` when it fails. Overflow is not
    * modelled, as for `Atoi`. */
  function ScanInt(s: string): (r: Option<(int, nat)>)
    ensures r.Some? ==> 0 < r.value.1 <= |s| && IsDigit(s[r.value.1 - 1])
    ensures r.Some? ==> r.value.1 < |s| ==> !IsDigit(s[r.value.1])
  {
    var w := SpaceRun(s);
    var t := s[w..];
    var sign := if t != [] && (t[0] == '-' || t[0] == '+') then 1 else 0;
    var d := DigitRun(t[sign..]);
    if d == 0 then None
    else
      var v: int := DigitsValue(t[sign..][..d]);
      Some((if sign == 1 && t[0] == '-' then -v else v, w + sign + d))
  }

  /** `%d` reads the same number `atoi` does, and fails only where `atoi`
    * gives 0. */
  lemma ScanIntAtoi(s: string)
    ensures ScanInt(s).Some? ==> ScanInt(s).value.0 == Atoi(s)
    ensures ScanInt(s).None? ==> Atoi(s) == 0
  {
    var t := s[SpaceRun(s)..];
    if t != [] && (t[0] == '-' || t[0] == '+') {
      assert t[1..] == t[1..][0..];
    } else {
      assert t == t[0..];
    }
  }

  /** `%d` reads back a decimal numeral that no digit follows. */
  lemma {:induction false} ScanIntNatString(n: nat, rest: string)
    requires rest == [] || !IsDigit(rest[0])
    ensures ScanInt(NatString(n) + rest) == Some((n, |NatString(n)|))
  {
    var d := NatString(n);
    var s := d + rest;
    assert !IsSpace(s[0]) by { assert IsDigit(d[0]); }
    assert SpaceRun(s) == 0;
    assert s[0..] == s;
    assert !(s[0] == '-' || s[0] == '+') by { assert IsDigit(d[0]); }
    assert s[0..][0..] == s;
    DigitRunPrefix(d, rest);
    assert s[..|d|] == d;
    NatStringValue(n);
  }

  lemma {:induction false} DigitRunPrefix(d: string, rest: string)
    requires AllDigits(d)
    requires rest == [] || !IsDigit(rest[0])
    ensures DigitRun(d + rest) == |d|
    decreases |d|
  {
    if d == [] {
      assert d + rest == rest;
    } else {
      assert (d + rest)[1..] == d[1..] + rest;
      DigitRunPrefix(d[1..], rest);
    }
  }

  /** The number of leading characters of `s`, at most `width`, that are
    * not white space. */
  function WordRun(s: string, width: nat): (n: nat)
    ensures n <= |s| && n <= width
    ensures forall i :: 0 <= i < n ==> !IsSpace(s[i])
    ensures n < |s| && n < width ==> IsSpace(s[n])
  {
    if s == [] || width == 0 || IsSpace(s[0]) then 0 else 1 + WordRun(s[1..], width - 1)
  }

  /** `%Ns` of `sscanf` with field width `width`: white space is skipped,
    * then up to `width` characters that are not white space are taken; it
    * fails when none is left. */
  function ScanWord(s: string, width: nat): (r: Option<string>)
    ensures r.Some? ==> 1 <= |r.value| <= width
    ensures r.Some? ==> forall i :: 0 <= i < |r.value| ==> !IsSpace(r.value[i])
    ensures r.Some? ==> r.value <= s[SpaceRun(s)..]
    ensures r.None? <==> SpaceRun(s) == |s| || width == 0
  {
    var k := SpaceRun(s);
    var t := s[k..];
    var n := WordRun(t, width);
    if n == 0 then None
    else Some(t[..n])
  }

  /** A word without white space that fits the width is read back whole. */
  lemma {:induction false} ScanWordWhole(w: string, width: nat)
    requires 1 <= |w| <= width
    requires forall i :: 0 <= i < |w| ==> !IsSpace(w[i])
    ensures ScanWord(w, width) == Some(w)
  {
    assert SpaceRun(w) == 0;
    assert w[0..] == w;
    WordRunAll(w, width);
    assert w[0..][..|w|] == w;
  }

  lemma {:induction false} WordRunAll(w: string, width: nat)
    requires |w| <= width
    requires forall i :: 0 <= i < |w| ==> !IsSpace(w[i])
    ensures WordRun(w, width) == |w|
    decreases |w|
  {
    if w != [] {
      WordRunAll(w[1..], width - 1);
    }
  }
}
