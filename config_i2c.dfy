/** The `i2c` configuration module: a map from 7-bit I2C addresses, written
  * as two lower-case hex digits, to the name of the driver to use there. */
module ConfigI2c {
  import opened CTypes
  import opened CStr

  /** The lowest and highest 7-bit addresses that are not reserved. */
  const FirstAddress := 0x08
  const LastAddress := 0x77

  /** The key without its optional `0x` or `0X` prefix. */
  function Digits(key: CString): (p: CString)
    ensures p <= key || (|key| >= 2 && p == key[2..])
  {
    if |key| >= 2 && key[0] == '0' && (key[1] == 'x' || key[1] == 'X') then key[2..] else key
  }

  predicate AllHex(s: string) {
    forall i :: 0 <= i < |s| ==> IsHexDigit(s[i])
  }

  /** The number hexadecimal digits `s` spell. */
  function HexNumber(s: string): (v: nat)
    requires AllHex(s)
    ensures |s| <= 1 ==> v < 16
    ensures |s| <= 2 ==> v < 256
  {
    if s == [] then 0 else HexNumber(s[..|s| - 1]) * 16 + HexValue(s[|s| - 1])
  }

  /** The address a key names, or `None` when `normalize_hex_key` rejects it:
    * NULL or empty, not one or two hex digits after the prefix, or outside
    * 0x08..0x77. */
  function KeyAddress(key: Option<CString>): (a: Option<int>)
    ensures a.Some? ==> FirstAddress <= a.value <= LastAddress
    ensures a.Some? ==> key.Some? && 1 <= |Digits(key.value)| <= 2 && AllHex(Digits(key.value))
  {
    if key.None? || key.value == "" then None
    else
      var p := Digits(key.value);
      if |p| == 0 || |p| > 2 || !AllHex(p) then None
      else
        var v := HexNumber(p);
        if v < FirstAddress || v > LastAddress then None else Some(v)
  }

  /** `to_hex_key`: `%02x` of an address. */
  function ToHexKey(a: nat): (k: CString)
    requires a < 0x100
    ensures |k| == 2 && AllHex(k) && HexNumber(k) == a
    ensures forall i :: 0 <= i < |k| ==> !('A' <= k[i] <= 'Z')
  {
    var k := [HexChar(a / 16), HexChar(a % 16)];
    assert k[..1] == [k[0]];
    k
  }

  /** `normalize_hex_key`: the key in its two-digit lower-case form. */
  function HexKey(key: Option<CString>): (k: Option<CString>)
    ensures k.Some? <==> KeyAddress(key).Some?
    ensures k.Some? ==> |k.value| == 2 && AllHex(k.value) && HexNumber(k.value) == KeyAddress(key).value
    ensures k.Some? ==> forall i :: 0 <= i < |k.value| ==> !('A' <= k.value[i] <= 'Z')
  {
    var a := KeyAddress(key);
    if a.None? then None else Some(ToHexKey(a.value))
  }

  /** The printed form of an address names that address again. */
  lemma {:induction false} ToHexKeyRoundTrip(a: nat)
    requires FirstAddress <= a <= LastAddress
    ensures KeyAddress(Some(ToHexKey(a))) == Some(a)
  {
    var k := ToHexKey(a);
    assert k[0] == HexChar(a / 16) && a / 16 < 8;
    assert k[1] != 'x' && k[1] != 'X' by { assert IsHexDigit(k[1]); }
    assert Digits(k) == k;
  }

  /** Normalising twice gives what normalising once gave. */
  lemma HexKeyIdempotent(key: Option<CString>)
    requires HexKey(key).Some?
    ensures HexKey(HexKey(key)) == HexKey(key)
  {
    ToHexKeyRoundTrip(KeyAddress(key).value);
  }

  /** Different addresses have different keys. */
  lemma ToHexKeyInjective(a: nat, b: nat)
    requires FirstAddress <= a <= LastAddress && FirstAddress <= b <= LastAddress
    ensures ToHexKey(a) == ToHexKey(b) ==> a == b
  {
    ToHexKeyRoundTrip(a);
    ToHexKeyRoundTrip(b);
  }

  /** `2a`, `0x2a` and `0X2A` are the same address. */
  lemma HexKeyPrefixes(s: CString)
    requires 1 <= |s| <= 2 && AllHex(s)
    ensures HexKey(Some("0x" + s)) == HexKey(Some(s)) == HexKey(Some("0X" + s))
  {
    assert ("0x" + s)[2..] == s && ("0X" + s)[2..] == s;
    assert Digits(s) == s by {
      if |s| >= 2 { assert IsHexDigit(s[1]); }
    }
  }

  /** A prefixed upper-case key comes out in lower case without the prefix. */
  lemma UpperCaseKeyExample()
    ensures HexKey(Some("0X2A")).Some? && HexKey(Some("0X2A")).value == "2a"
  {
    assert Digits("0X2A") == "2A";
    assert HexNumber("2A") == 42 by { assert "2A"[..1] == "2"; assert "2"[..0] == ""; }
  }

  /** A single digit is padded to two. */
  lemma PaddedKeyExample()
    ensures HexKey(Some("8")).Some? && HexKey(Some("8")).value == "08"
  {
    assert HexNumber("8") == 8 by { assert "8"[..0] == ""; }
  }

  /** 0x77 is the last address accepted and 0x78 the first refused. */
  lemma LastAddressExample()
    ensures HexKey(Some("0x77")).Some? && HexKey(Some("0x78")).None?
  {
    assert Digits("0x77") == "77" && Digits("0x78") == "78";
    assert HexNumber("77") == 0x77 by { assert "77"[..1] == "7"; assert "7"[..0] == ""; }
    assert HexNumber("78") == 0x78 by { assert "78"[..1] == "7"; assert "7"[..0] == ""; }
  }

  /** A bare prefix, three digits and a non-digit are refused. */
  lemma MalformedKeyExample()
    ensures HexKey(Some("0x")).None? && HexKey(Some("123")).None? && HexKey(Some("g1")).None?
  {
    assert Digits("0x") == "";
    assert !IsHexDigit("g1"[0]);
  }

  /** The loop of `normalize_hex_key`: each digit is shifted in with
    * `(value << 4) | v`, which for a digit `v < 16` is `value * 16 + v`. */
  method NormalizeHexKey(key: Option<CString>) returns (ok: bool, normalized: CString)
    ensures ok <==> HexKey(key).Some?
    ensures ok ==> normalized == HexKey(key).value
  {
    normalized := "";
    if key.None? || key.value == "" {
      return false, normalized;
    }
    var p := Digits(key.value);
    if |p| == 0 || |p| > 2 {
      return false, normalized;
    }
    var value := 0;
    var i := 0;
    while i < |p|
      invariant 0 <= i <= |p|
      invariant AllHex(p[..i]) && value == HexNumber(p[..i])
    {
      if !IsHexDigit(p[i]) {
        assert !AllHex(p);
        return false, normalized;
      }
      assert p[..i + 1][..i] == p[..i];
      value := value * 16 + HexValue(p[i]);
      i := i + 1;
    }
    assert p[..i] == p;
    if value < FirstAddress || value > LastAddress {
      return false, normalized;
    }
    return true, ToHexKey(value);
  }

  /** Every stored key is a normalised address key. */
  predicate Normalized(drivers: map<CString, CString>) {
    forall k :: k in drivers ==> HexKey(Some(k)) == Some(k)
  }

  /** What `apply_update` leaves: its result, the map, and whether it bumped
    * the generation. */
  datatype I2cUpdate = I2cUpdate(err: EspErr, drivers: map<CString, CString>, bumped: bool)

  /** `I2CConfig::apply_update` on the map `drivers`. */
  function Update(drivers: map<CString, CString>, key: Option<CString>, value: Option<CString>): (r: I2cUpdate)
    ensures HexKey(key).None? ==> r == I2cUpdate(INVALID_ARG, drivers, false)
    ensures HexKey(key).Some? ==> r.err == OK
    ensures HexKey(key).Some? && (value.None? || value.value == "") ==>
      r.drivers.Keys == drivers.Keys - {HexKey(key).value} && (r.bumped <==> HexKey(key).value in drivers)
    ensures HexKey(key).Some? && value.Some? && value.value != "" ==>
      r.drivers.Keys == drivers.Keys + {HexKey(key).value} && r.drivers[HexKey(key).value] == value.value && r.bumped
  {
    var nk := HexKey(key);
    if nk.None? then I2cUpdate(INVALID_ARG, drivers, false) else UpdateAt(drivers, nk.value, value)
  }

  /** The update for the normalised key `nk`: an empty or NULL value erases
    * the entry, bumping the generation only if there was one; any other value
    * is stored and bumps it. */
  function UpdateAt(drivers: map<CString, CString>, nk: CString, value: Option<CString>): (r: I2cUpdate)
  {
    if value.None? || value.value == "" then I2cUpdate(OK, drivers - {nk}, nk in drivers)
    else I2cUpdate(OK, drivers[nk := value.value], true)
  }

  /** An update touches no entry but the one for its key. */
  lemma UpdateFrame(drivers: map<CString, CString>, key: Option<CString>, value: Option<CString>, k: CString)
    requires k in Update(drivers, key, value).drivers && (HexKey(key).None? || k != HexKey(key).value)
    ensures k in drivers && Update(drivers, key, value).drivers[k] == drivers[k]
  {
  }

  /** Updates keep every stored key normalised. */
  lemma UpdateNormalized(drivers: map<CString, CString>, key: Option<CString>, value: Option<CString>)
    requires Normalized(drivers)
    ensures Normalized(Update(drivers, key, value).drivers)
  {
    if HexKey(key).Some? {
      HexKeyIdempotent(key);
    }
  }

  /** `get_driver_for_address`: `""` outside 0x08..0x77 or when unmapped. */
  function Lookup(drivers: map<CString, CString>, a: u8): (d: CString)
    ensures !(FirstAddress <= a <= LastAddress) ==> d == ""
    ensures FirstAddress <= a <= LastAddress && ToHexKey(a) !in drivers ==> d == ""
    ensures FirstAddress <= a <= LastAddress && ToHexKey(a) in drivers ==> d == drivers[ToHexKey(a)]
  {
    if a < FirstAddress || a > LastAddress then ""
    else
      var k := ToHexKey(a);
      if k in drivers then drivers[k] else ""
  }

  /** After an update for address `a`, the address reads the value given
    * (`""` for NULL), and every other address reads what it did. */
  lemma UpdateThenLookup(drivers: map<CString, CString>, key: Option<CString>, value: Option<CString>, b: u8)
    requires KeyAddress(key).Some?
    ensures Lookup(Update(drivers, key, value).drivers, b)
      == if b == KeyAddress(key).value then (if value.Some? then value.value else "") else Lookup(drivers, b)
  {
    var a := KeyAddress(key).value;
    if FirstAddress <= b <= LastAddress {
      ToHexKeyInjective(a, b);
    }
  }

  /** An `I2CConfig` object: the map and the generation counter. */
  class I2cConfig {
    var drivers: map<CString, CString>
    var generation: u32

    predicate Valid()
      reads this
    {
      Normalized(drivers)
    }

    constructor ()
      ensures Valid() && drivers == map[] && generation == 0
    {
      drivers := map[];
      generation := 0;
    }

    method ApplyUpdate(key: Option<CString>, value: Option<CString>) returns (err: EspErr)
      requires Valid()
      modifies this
      ensures Valid()
      ensures var u := Update(old(drivers), key, value);
        err == u.err && drivers == u.drivers
        && generation == if u.bumped then WrapU32(old(generation) + 1) else old(generation)
    {
      UpdateNormalized(drivers, key, value);
      var ok, norm := NormalizeHexKey(key);
      if !ok {
        return INVALID_ARG;
      }
      err := UpdateEntry(norm, value);
    }

    /** The map update and generation bump for a normalised key. */
    method UpdateEntry(norm: CString, value: Option<CString>) returns (err: EspErr)
      modifies this
      ensures var u := UpdateAt(old(drivers), norm, value);
        err == u.err && drivers == u.drivers
        && generation == if u.bumped then WrapU32(old(generation) + 1) else old(generation)
    {
      if value.None? || value.value == "" {
        if norm in drivers {
          drivers := drivers - {norm};
          generation := WrapU32(generation + 1);
        } else {
          assert drivers - {norm} == drivers;
        }
        return OK;
      }
      drivers := drivers[norm := value.value];
      generation := WrapU32(generation + 1);
      return OK;
    }

    /** `get_driver_for_address`. */
    function DriverFor(a: u8): (d: CString)
      reads this
      ensures d == Lookup(drivers, a)
    {
      if a < 0x08 || a > 0x77 then ""
      else
        var k := ToHexKey(a);
        if k in drivers then drivers[k] else ""
    }
  }
}
