/** The metrics tag collection: a fixed array of key/value tags and a count,
  * seeded with the device tags and updated by key. The capacity and the two
  * string buffer sizes (`MAX_DEVICE_TAGS`, `MAX_TAG_KEY_LEN`,
  * `MAX_TAG_VALUE_LEN`) are defined in a header that is not part of this
  * model, so they are parameters here. */
module MetricsTags {
  import opened CTypes
  import opened CStr
  import opened Arith

  /** One tag, as the NUL-terminated contents of its two buffers. */
  datatype Tag = Tag(key: CString, value: CString)

  // ------------------------------------------------------- specification

  /** The first position holding `key`. */
  function IndexOfKey(ts: seq<Tag>, key: string): (r: Option<nat>)
    ensures r.Some? ==> r.value < |ts| && ts[r.value].key == key &&
                        forall j :: 0 <= j < r.value ==> ts[j].key != key
    ensures r.None? ==> forall j :: 0 <= j < |ts| ==> ts[j].key != key
  {
    if ts == [] then None
    else if ts[0].key == key then Some(0)
    else
      var k := IndexOfKey(ts[1..], key);
      if k.None? then None else Some(k.value + 1)
  }

  /** The value the collection reports for `key`: the first match. */
  function Lookup(ts: seq<Tag>, key: string): (r: Option<string>)
    ensures r.Some? <==> exists j :: 0 <= j < |ts| && ts[j].key == key
  {
    var k := IndexOfKey(ts, key);
    if k.None? then None else Some(ts[k.value].value)
  }

  predicate UniqueKeys(ts: seq<Tag>) {
    forall i, j :: 0 <= i < j < |ts| ==> ts[i].key != ts[j].key
  }

  /** Every stored string fits its buffer with its terminator. */
  predicate Fits(ts: seq<Tag>, keyLen: nat, valueLen: nat) {
    forall i :: 0 <= i < |ts| ==> |ts[i].key| < keyLen && |ts[i].value| < valueLen
  }

  /** `add_tag_to_collection` on the tags `ts` of a collection with room for
    * `cap`: an existing key has its value overwritten in place; a new key
    * is appended when there is room, and refused with NO_MEM otherwise.
    * Both strings are cut to their buffer sizes. */
  function AddSpec(ts: seq<Tag>, cap: nat, keyLen: nat, valueLen: nat, key: CString, value: CString)
    : (r: (EspErr, seq<Tag>))
    requires keyLen >= 1 && valueLen >= 1
    ensures IndexOfKey(ts, key).Some? ==>
      var i := IndexOfKey(ts, key).value;
      r.0 == OK && |r.1| == |ts| && r.1[i] == Tag(key, Fit(value, valueLen)) &&
      forall j :: 0 <= j < |ts| && j != i ==> r.1[j] == ts[j]
    ensures IndexOfKey(ts, key).None? && |ts| >= cap ==> r == (NO_MEM, ts)
    ensures IndexOfKey(ts, key).None? && |ts| < cap ==>
      r == (OK, ts + [Tag(Fit(key, keyLen), Fit(value, valueLen))])
  {
    var k := IndexOfKey(ts, key);
    if k.Some? then (OK, ts[k.value := Tag(ts[k.value].key, Fit(value, valueLen))])
    else if |ts| >= cap then (NO_MEM, ts)
    else (OK, ts + [Tag(Fit(key, keyLen), Fit(value, valueLen))])
  }

  /** `remove_tag_from_collection` on the tags `ts`: the first tag holding
    * `key` is removed and the later ones move down a place, in order. */
  function RemoveSpec(ts: seq<Tag>, key: string): (r: (EspErr, seq<Tag>))
    ensures IndexOfKey(ts, key).None? ==> r == (NOT_FOUND, ts)
    ensures IndexOfKey(ts, key).Some? ==>
      var i := IndexOfKey(ts, key).value;
      r.0 == OK && |r.1| == |ts| - 1 &&
      (forall j :: 0 <= j < i ==> r.1[j] == ts[j]) &&
      (forall j :: i <= j < |r.1| ==> r.1[j] == ts[j + 1])
  {
    var k := IndexOfKey(ts, key);
    if k.None? then (NOT_FOUND, ts) else (OK, ts[..k.value] + ts[k.value + 1..])
  }

  // ------------------------------------------------------- properties

  /** After a successful add of a key that fits its buffer, the key reports
    * the (cut) new value. */
  lemma AddThenLookup(ts: seq<Tag>, cap: nat, keyLen: nat, valueLen: nat, key: CString, value: CString)
    requires keyLen >= 1 && valueLen >= 1 && |key| < keyLen
    requires AddSpec(ts, cap, keyLen, valueLen, key, value).0 == OK
    ensures Lookup(AddSpec(ts, cap, keyLen, valueLen, key, value).1, key) == Some(Fit(value, valueLen))
  {
    var r := AddSpec(ts, cap, keyLen, valueLen, key, value).1;
    var k := IndexOfKey(ts, key);
    if k.Some? {
      var k' := IndexOfKey(r, key);
      assert k'.Some? && k'.value == k.value by {
        assert r[k.value].key == key;
        assert forall j :: 0 <= j < k.value ==> r[j] == ts[j];
      }
    } else {
      assert r[|ts|].key == key;
      assert IndexOfKey(r, key) == Some(|ts|) by {
        assert forall j :: 0 <= j < |ts| ==> r[j] == ts[j];
      }
    }
  }

  /** Adding one key leaves what every other key reports unchanged (the
    * other key must differ from the stored, cut form of `key`, too). */
  lemma AddKeepsOthers(ts: seq<Tag>, cap: nat, keyLen: nat, valueLen: nat, key: CString, value: CString,
                       other: string)
    requires keyLen >= 1 && valueLen >= 1
    requires other != key && other != Fit(key, keyLen)
    ensures Lookup(AddSpec(ts, cap, keyLen, valueLen, key, value).1, other) == Lookup(ts, other)
  {
    var r := AddSpec(ts, cap, keyLen, valueLen, key, value).1;
    assert |r| >= |ts|;
    assert forall j :: 0 <= j < |ts| ==> r[j].key == ts[j].key;
    assert forall j :: |ts| <= j < |r| ==> r[j].key != other;
    var a, b := IndexOfKey(r, other), IndexOfKey(ts, other);
    if b.Some? {
      assert a.Some? && a.value == b.value;
      assert r[b.value] == ts[b.value];
    } else {
      assert a.None?;
    }
  }

  /** Adding keeps the keys distinct as long as the key fits its buffer. */
  lemma AddKeepsUnique(ts: seq<Tag>, cap: nat, keyLen: nat, valueLen: nat, key: CString, value: CString)
    requires keyLen >= 1 && valueLen >= 1 && |key| < keyLen && UniqueKeys(ts)
    ensures UniqueKeys(AddSpec(ts, cap, keyLen, valueLen, key, value).1)
  {
    var r := AddSpec(ts, cap, keyLen, valueLen, key, value).1;
    assert forall j :: 0 <= j < |ts| ==> r[j].key == ts[j].key;
  }

  /** With distinct keys, a removed key is gone afterwards. */
  lemma RemoveThenAbsent(ts: seq<Tag>, key: string)
    requires UniqueKeys(ts)
    ensures Lookup(RemoveSpec(ts, key).1, key).None?
  {
    var k := IndexOfKey(ts, key);
    if k.Some? {
      var r := RemoveSpec(ts, key).1;
      forall j | 0 <= j < |r|
        ensures r[j].key != key
      {
        if j >= k.value {
          assert r[j] == ts[j + 1];
        }
      }
    }
  }

  /** Removing one key leaves what every other key reports unchanged. */
  lemma RemoveKeepsOthers(ts: seq<Tag>, key: string, other: string)
    requires other != key
    ensures Lookup(RemoveSpec(ts, key).1, other) == Lookup(ts, other)
  {
    var k := IndexOfKey(ts, key);
    if k.Some? {
      var i := k.value;
      var r := RemoveSpec(ts, key).1;
      var a, b := IndexOfKey(r, other), IndexOfKey(ts, other);
      if b.Some? {
        if b.value < i {
          assert r[b.value] == ts[b.value];
          assert a.Some? && a.value == b.value;
        } else {
          assert b.value > i;
          assert r[b.value - 1] == ts[b.value];
          assert forall j :: 0 <= j < b.value - 1 ==> r[j].key != other by {
            forall j | 0 <= j < b.value - 1
              ensures r[j].key != other
            {
              if j >= i {
                assert r[j] == ts[j + 1];
              }
            }
          }
          assert a.Some? && a.value == b.value - 1;
        }
      } else {
        forall j | 0 <= j < |r|
          ensures r[j].key != other
        {
          if j >= i {
            assert r[j] == ts[j + 1];
          }
        }
      }
    }
  }

  /** Removing a key just added (new, fitting, with room) restores the tags. */
  lemma AddThenRemove(ts: seq<Tag>, cap: nat, keyLen: nat, valueLen: nat, key: CString, value: CString)
    requires keyLen >= 1 && valueLen >= 1 && |key| < keyLen
    requires Lookup(ts, key).None? && |ts| < cap
    ensures RemoveSpec(AddSpec(ts, cap, keyLen, valueLen, key, value).1, key) == (OK, ts)
  {
    var r := AddSpec(ts, cap, keyLen, valueLen, key, value).1;
    assert IndexOfKey(ts, key).None?;
    assert r == ts + [Tag(key, Fit(value, valueLen))];
    assert r[|ts|].key == key;
    assert forall j :: 0 <= j < |ts| ==> r[j].key != key;
    assert IndexOfKey(r, key) == Some(|ts|);
    assert r[..|ts|] == ts;
    assert r[|ts| + 1..] == [];
    assert r[..|ts|] + r[|ts| + 1..] == ts;
    assert RemoveSpec(r, key) == (OK, r[..|ts|] + r[|ts| + 1..]);
  }

  /** A key longer than its buffer is stored cut, so it never matches what
    * it stored: adding it again appends a second, equal-keyed tag. */
  lemma LongKeyAppendsAgain(cap: nat, keyLen: nat, valueLen: nat, key: CString, v1: CString, v2: CString)
    requires keyLen >= 1 && valueLen >= 1 && |key| >= keyLen && cap >= 2
    ensures var once := AddSpec([], cap, keyLen, valueLen, key, v1).1;
            var twice := AddSpec(once, cap, keyLen, valueLen, key, v2).1;
            |twice| == 2 && twice[0].key == twice[1].key
  {
    var once := AddSpec([], cap, keyLen, valueLen, key, v1).1;
    assert once[0].key != key by {
      assert |once[0].key| < |key|;
    }
  }

  // ------------------------------------------------------- seeding

  /** An uppercase hexadecimal digit, as `%X` prints it: the `%x` digit
    * with its letter raised to upper case. */
  function UpperHex(d: nat): (c: char)
    requires d < 16
    ensures IsHexDigit(c) && HexValue(c) == d
    ensures !('a' <= c <= 'z')
  {
    var l := HexChar(d);
    if 'a' <= l <= 'z' then (l as int - 32) as char else l
  }

  /** `%02X%02X%02X%02X%02X%02X` of the station MAC address. */
  function MacString(mac: seq<u8>): (s: CString)
    ensures |s| == 2 * |mac|
  {
    if mac == [] then []
    else [UpperHex(mac[0] / 16), UpperHex(mac[0] % 16)] + MacString(mac[1..])
  }

  /** Each byte of the address is printed as its two hexadecimal digits,
    * high nibble first, so the text reads back to the address. */
  lemma {:induction false} MacStringAt(mac: seq<u8>, i: nat)
    requires i < |mac|
    ensures var s := MacString(mac);
            IsHexDigit(s[2 * i]) && IsHexDigit(s[2 * i + 1]) &&
            HexValue(s[2 * i]) * 16 + HexValue(s[2 * i + 1]) == mac[i]
  {
    if i > 0 {
      MacStringAt(mac[1..], i - 1);
      assert MacString(mac)[2..] == MacString(mac[1..]);
    }
  }

  const AreaKey: CString := "area"
  const RoomKey: CString := "room"
  const IdKey: CString := "id"
  const MacKey: CString := "mac"
  const SensorKey: CString := "sensor"

  /** The value of the `sensor` tag: room and id joined by a dash. */
  function SensorName(room: CString, id: CString): (r: CString)
    ensures |r| == |room| + 1 + |id| && r[|room|] == '-'
    ensures r[..|room|] == room && r[|room| + 1..] == id
  {
    room + "-" + id
  }

  /** The five device tags `create_tag_collection` seeds, in order. */
  function SeedTags(keyLen: nat, valueLen: nat, area: CString, room: CString, id: CString, mac: seq<u8>)
    : (ts: seq<Tag>)
    requires keyLen >= 1 && valueLen >= 1
    ensures |ts| == 5 && Fits(ts, keyLen, valueLen)
  {
    var ts := [Seed(AreaKey, area, keyLen, valueLen),
               Seed(RoomKey, room, keyLen, valueLen),
               Seed(IdKey, id, keyLen, valueLen),
               Seed(MacKey, MacString(mac), keyLen, valueLen),
               Seed(SensorKey, SensorName(room, id), keyLen, valueLen)];
    assert forall i :: 0 <= i < 5 ==> |ts[i].key| < keyLen && |ts[i].value| < valueLen;
    ts
  }

  /** One seeded tag: both strings cut to fit their buffers. */
  function Seed(key: CString, value: CString, keyLen: nat, valueLen: nat): (t: Tag)
    requires keyLen >= 1 && valueLen >= 1
    ensures |t.key| < keyLen && |t.value| < valueLen
  {
    Tag(Fit(key, keyLen), Fit(value, valueLen))
  }

  // ------------------------------------------------------- the collection

  class TagCollection {
    const capacity: nat
    const keyLen: nat
    const valueLen: nat
    const tags: array<Tag>
    var count: nat

    ghost predicate Valid()
      reads this, tags
    {
      tags.Length == capacity && count <= capacity && keyLen >= 1 && valueLen >= 1 &&
      Fits(tags[..count], keyLen, valueLen)
    }

    /** The tags in use, in storage order. */
    function Contents(): (ts: seq<Tag>)
      reads this, tags
      requires Valid()
      ensures |ts| == count
    {
      tags[..count]
    }

    /** The allocation and seeding of `create_tag_collection`: as many of the
      * five device tags as there is room for. */
    constructor (capacity: nat, keyLen: nat, valueLen: nat,
                 area: CString, room: CString, id: CString, mac: seq<u8>)
      requires keyLen >= 1 && valueLen >= 1
      ensures Valid() && fresh(tags)
      ensures this.capacity == capacity && this.keyLen == keyLen && this.valueLen == valueLen
      ensures Contents() == SeedTags(keyLen, valueLen, area, room, id, mac)[..Min(capacity, 5)]
    {
      this.capacity, this.keyLen, this.valueLen := capacity, keyLen, valueLen;
      var seeds := SeedTags(keyLen, valueLen, area, room, id, mac);
      var a := new Tag[capacity](_ => Tag("", ""));
      var n := 0;
      while n < 5 && n < capacity
        invariant 0 <= n <= 5 && n <= capacity
        invariant a[..n] == seeds[..n]
      {
        a[n] := seeds[n];
        n := n + 1;
      }
      tags := a;
      count := n;
      new;
      assert tags[..count] == seeds[..Min(capacity, 5)];
    }
  }

  /** `create_tag_collection`: NULL when the allocation fails. */
  method CreateTagCollection(allocOk: bool, capacity: nat, keyLen: nat, valueLen: nat,
                             area: CString, room: CString, id: CString, mac: seq<u8>)
    returns (c: TagCollection?)
    requires keyLen >= 1 && valueLen >= 1
    ensures c == null <==> !allocOk
    ensures c != null ==>
      (fresh(c) && c.Valid() && c.capacity == capacity &&
       c.keyLen == keyLen && c.valueLen == valueLen &&
       c.Contents() == SeedTags(keyLen, valueLen, area, room, id, mac)[..Min(capacity, 5)])
  {
    if !allocOk {
      return null;
    }
    c := new TagCollection(capacity, keyLen, valueLen, area, room, id, mac);
  }

  /** `add_tag_to_collection`. A NULL collection, key or value is refused. */
  method AddTag(c: TagCollection?, key: Option<CString>, value: Option<CString>) returns (err: EspErr)
    requires c != null ==> c.Valid()
    modifies if c != null then {c as object, c.tags} else {}
    ensures c != null ==> c.Valid()
    ensures c == null || key.None? || value.None? ==>
      err == INVALID_ARG && (c != null ==> c.Contents() == old(c.Contents()))
    ensures c != null && key.Some? && value.Some? ==>
      (err, c.Contents()) == AddSpec(old(c.Contents()), c.capacity, c.keyLen, c.valueLen, key.value, value.value)
  {
    if c == null || key.None? || value.None? {
      return INVALID_ARG;
    }
    ghost var ts := c.Contents();
    var k, v := key.value, value.value;
    var i := 0;
    while i < c.count
      invariant 0 <= i <= c.count
      invariant forall j :: 0 <= j < i ==> ts[j].key != k
    {
      if c.tags[i].key == k {
        c.tags[i] := Tag(c.tags[i].key, Fit(v, c.valueLen));
        assert IndexOfKey(ts, k) == Some(i);
        assert c.Contents() == ts[i := Tag(ts[i].key, Fit(v, c.valueLen))];
        return OK;
      }
      i := i + 1;
    }
    assert IndexOfKey(ts, k).None?;
    if c.count >= c.capacity {
      return NO_MEM;
    }
    c.tags[c.count] := Tag(Fit(k, c.keyLen), Fit(v, c.valueLen));
    c.count := c.count + 1;
    assert c.Contents() == ts + [Tag(Fit(k, c.keyLen), Fit(v, c.valueLen))];
    err := OK;
  }

  /** `remove_tag_from_collection`. A NULL collection or key is refused. */
  method RemoveTag(c: TagCollection?, key: Option<CString>) returns (err: EspErr)
    requires c != null ==> c.Valid()
    modifies if c != null then {c as object, c.tags} else {}
    ensures c != null ==> c.Valid()
    ensures c == null || key.None? ==>
      err == INVALID_ARG && (c != null ==> c.Contents() == old(c.Contents()))
    ensures c != null && key.Some? ==> (err, c.Contents()) == RemoveSpec(old(c.Contents()), key.value)
  {
    if c == null || key.None? {
      return INVALID_ARG;
    }
    ghost var ts := c.Contents();
    var k := key.value;
    var i := 0;
    while i < c.count
      invariant 0 <= i <= c.count
      invariant forall j :: 0 <= j < i ==> ts[j].key != k
    {
      if c.tags[i].key == k {
        assert IndexOfKey(ts, k) == Some(i);
        ShiftDown(c, i);
        return OK;
      }
      i := i + 1;
    }
    assert IndexOfKey(ts, k).None?;
    err := NOT_FOUND;
  }

  /** The shift loop of `remove_tag_from_collection`: the tags after `i`
    * move down one place and the count drops by one. */
  method ShiftDown(c: TagCollection, i: nat)
    requires c.Valid() && i < c.count
    modifies c, c.tags
    ensures c.Valid()
    ensures c.Contents() == old(c.Contents()[..i] + c.Contents()[i + 1..])
  {
    ghost var ts := c.tags[..c.count];
    ShiftArray(c.tags, i, c.count);
    c.count := c.count - 1;
    assert forall m :: 0 <= m < c.count ==> c.tags[m] == ts[if m < i then m else m + 1];
    assert c.tags[..c.count] == ts[..i] + ts[i + 1..];
    FitsRemove(ts, i, c.keyLen, c.valueLen);
  }

  lemma FitsRemove(ts: seq<Tag>, i: nat, keyLen: nat, valueLen: nat)
    requires i < |ts| && Fits(ts, keyLen, valueLen)
    ensures Fits(ts[..i] + ts[i + 1..], keyLen, valueLen)
  {
    var r := ts[..i] + ts[i + 1..];
    assert forall m :: 0 <= m < |r| ==> r[m] == ts[if m < i then m else m + 1];
  }

  /** Moves `a[i + 1..n]` down to `a[i..n - 1]`, from the front. */
  method ShiftArray(a: array<Tag>, i: nat, n: nat)
    requires i < n <= a.Length
    modifies a
    ensures forall m :: 0 <= m < i ==> a[m] == old(a[m])
    ensures forall m :: i <= m < n - 1 ==> a[m] == old(a[m + 1])
  {
    ghost var s := a[..];
    var j := i + 1;
    while j < n
      invariant i + 1 <= j <= n
      invariant forall m :: 0 <= m < i ==> a[m] == s[m]
      invariant forall m :: i <= m < j - 1 ==> a[m] == s[m + 1]
      invariant forall m :: j - 1 <= m < a.Length ==> a[m] == s[m]
    {
      a[j - 1] := a[j];
      j := j + 1;
    }
  }
}
